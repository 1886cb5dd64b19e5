# pkcs11rs: models and proofs

This project models the stateful core of pkcs11rs, a PKCS #11 module for YubiKeys
and YubiHSMs, and proves properties of the model over all inputs and all runs.

| files | what they model |
|---|---|
| `SecureChannel`, `SecureChannelRuns`, `SecureChannelTheorems`, `SecureChannelLogin`, `Reader` | the applets of one smart-card reader that share a selected applet, a live SCP session, a login, a connection epoch and an SCP11 key cache |
| `CtapHid`, `CtapHidTransport` | CTAPHID framing (section 11.2.4 of CTAP 2.1) and the transport around it |
| `Iso7816`, `Iso7816Connector`, `Atr` | command chaining and response collection (ISO/IEC 7816-4) and the answer to reset (ISO/IEC 7816-3) |
| `Cbor`, `CborMap`, `CertificateBundle`, `PublicKeyEntries`, `PublicKeyMaterial`, `DataObject`, `Schemas` | the CBOR records (section 3 of RFC 8949) of certificate bundles, public keys, data objects and certificates |
| `ObjectStore` | content-addressed storage of token objects |
| `OceChain` | the certificate chain sent to a card for SCP11 |
| `DeviceBinding`, `SplitRefresh`, `DeviceConnector` | a device bound to its serial, the operation brackets and the gate that HID and CCID operations share |
| `DeviceSessions` | the device as the base connection of the applets |
| `HttpEpoch`, `HttpConnector` | the connection epoch of a networked HSM |
| `SlotRegistry`, `CredentialSearch` | the slot registry and the search for a client's credential |

Code that changes state is a class or a method with loops, proved equal to a function
on values; the results are lemmas about these functions and about every run of them.
What comes from outside (cards, HID and HTTP transports, clocks, random numbers,
cryptographic checks) is a parameter that may answer anything.

Conventions. A trace is the list of everything sent so far, newest last. A run is any
sequence of enabled steps, so steps of different applets, threads or callers
interleave in every order. Counters are unbounded. A 32-bit HID channel is its four
big-endian bytes, and a finite report stream stands for the read deadline: its end is
the timeout. Calls of one applet are serialized by its slot lock; the parts of a call
that run outside the reader's operation gate are separate steps. Discovery probes a
reader before its slots are visible to other threads, so a probe is one step. The
connection under a reader can be replaced at any moment, between calls and inside them,
whether or not the base connector publishes a new epoch for it; a query of another thread
can run wherever the state lock is free.

Four promises do not hold as written, and each has a concrete run and an exact
condition:

- A refresh of a CCID applet can answer success at an unchanged epoch and still drop the
  login, when the base connector answers success but reports the device absent
  (`RefreshCanDropLogin`, `RefreshKeepsLogin`).
- An APDU can leave over another connection than the one its applet was selected or its
  session opened on. A plain one reaches its applet if and only if the connection was not
  replaced after the call's entry check and the SELECT in force, and the selection had not
  lapsed. A selection lapses when it is recorded after a replacement, or when a replacement
  is not published (`PlainFollowsItsSelect`, `PlainReachesApplet`, `SelectLapses`,
  `RefreshLapses`, `PlainCanMissItsApplet`, `PlainCanMissSilently`,
  `PlainCanUseLapsedSelection`). A protected one goes to the reader and generation of its
  session if and only if the connection was not replaced after the call's entry check or
  silently (`ProtectedOnItsConnection`, `ProtectedReachesSession`,
  `ProtectedCanMissItsSession`).
- Equal HTTP epochs do not rule out a new generation while a discovery call has published
  it and not yet advanced the epoch (`FenceIsDownInWindow`, `EqualEpochs`).
- A refresh of a serial-bound device, taken in its separate steps, can accept another
  device. One that claimed its reader is right if and only if it identified the reader anew
  or the recorded generation of the bound reader was itself identified
  (`ClaimedRefreshIdentifies`); it need not have been (`ClaimedRefreshCanMistake`,
  `LateRebindCanMistake`). The record stays good exactly while no result and no rebind
  records a place that was not identified (`SoundRun`, `RecordIsRightExactly`). Every
  success is right when every refresh of the run claims its reader and readers are bound in
  the generation they were found in (`AllClaimedIdentify`). From every state without a
  claim, inside whatever operation, a rebind between the steps of a refresh can spoil the
  record (`UnclaimedRefreshCanMistake`, `HidRefreshCanMistake`, `AbsentBeginCanMistake`).

## Model

| member | source | states |
|---|---|---|
| SecureChannelTheorems.NoPlainThroughOpenChannel | src/connector.rs:797-1053 | In every interleaved run of all applets, an application APDU that leaves in plain leaves through an applet whose channel has not been started since its last reset and which was selected last |
| SecureChannelTheorems.PlainFollowsItsSelect | src/connector.rs:797-973 | In every run a plain APDU follows an accepted SELECT of its applet with no other one between, and goes to the connection that answered it if and only if the connection was not replaced after the call's entry check and that SELECT, and the selection had not lapsed |
| SecureChannelTheorems.PlainReachesApplet | src/connector.rs:964-973 | A plain send goes to a card on which the applet is selected if and only if the connection is not replaced after the SELECT of the call, or after its entry check when it needs none, and then the kept selection had not lapsed |
| SecureChannelTheorems.SelectLapses | src/connector.rs:801-813 | The SELECT of a call records a selection that has lapsed if and only if the connection is replaced between its answer and reading the epoch |
| SecureChannelTheorems.RefreshLapses | src/connector.rs:1228-1236 | A refresh records a selection that has lapsed if and only if the connection is replaced between its SELECT and recording it |
| SecureChannelTheorems.PlainCanMissItsApplet | src/connector.rs:964-973 | A concrete run in which the connection is replaced between the entry check and the plain APDU, and nothing notices |
| SecureChannelTheorems.PlainCanMissSilently | src/connector.rs:645-678 | A concrete run in which a replacement that is not published leaves the selection in place for the next plain APDU |
| SecureChannelTheorems.PlainCanUseLapsedSelection | src/connector.rs:801-813 | A concrete run in which the connection is replaced between a SELECT and reading the epoch, and the next call goes on with that selection |
| SecureChannelTheorems.ProtectedByItsSession | src/connector.rs:964-1024 | In every run, a protected APDU is carried by the session established last for its own applet, and since then there was no accepted SELECT, plain APDU or new authentication, and no reconnection was noticed |
| SecureChannelTheorems.ProtectedOnItsConnection | src/connector.rs:797-993 | In every run a protected APDU goes to the reader and generation on which its session was established if and only if the connection was not replaced after the call's entry check and the establishment, and no replacement since then was left unpublished |
| SecureChannelTheorems.ProtectedReachesSession | src/connector.rs:964-993 | A protected send finds its session live on the card if and only if the connection is not replaced after opening it, or after the entry check when it was open, and then no replacement was left unpublished |
| SecureChannelTheorems.ProtectedCanMissItsSession | src/connector.rs:964-993 | A concrete run in which the connection is replaced between the entry check and the protected APDU |
| SecureChannelTheorems.StartedSendIsProtectedOrRefused | src/connector.rs:964-993 | Once a channel has started, a send succeeds only as a protected APDU of the live session; otherwise it fails, with no APDU or one protected one sent |
| SecureChannelTheorems.StartedTransmitIsProtectedOrRefused | src/connector.rs:1162-1187 | The same for the raw-bytes entry point, which decodes, sends, and fails when the reply does not fit |
| SecureChannelTheorems.AdministrationIsProtected | src/connector.rs:1461-1552 | An administration sends at most one APDU, protected by the live session, and succeeds only with it |
| SecureChannelTheorems.OneChannelBetweenResets | src/connector.rs:840-848 | Without session recreation, in every run a channel is established only if none was established for that applet since its last reset |
| SecureChannelTheorems.SessionBelongsToItsApplet | src/connector.rs:190-260 | In every run a live session belongs to the selected applet, has its protocol recorded, and its owner is enabled, started (unless being cleared) and has an active protocol; no two applets have a session or report a login |
| SecureChannelTheorems.DormantStep | src/connector.rs:815-829 | With a login-selected protocol, no credential and no session, every send, transmit and administration of that applet fails and the condition lasts, whatever any applet does except a successful prepare |
| SecureChannelTheorems.DormantRun | src/connector.rs:1269-1323 | So through any run without a successful login prepare of that applet, no application APDU leaves through it |
| SecureChannelTheorems.RefreshKeepsLogin | src/connector.rs:1189-1247 | A successful refresh keeps a login if and only if the device is reported present, the epoch was current and none is published during the refresh; no other applet gains one |
| SecureChannelTheorems.RefreshCanDropLogin | src/connector.rs:1192-1209 | A concrete run, discovery and login, after which a refresh succeeds at an unchanged epoch and drops the login |
| SecureChannelTheorems.LoginSurvivesRefreshes | src/connector.rs:1189-1247 | Any number of refreshes of any applets, with the device present and no new epoch published, keeps the selection, session and login |
| SecureChannelTheorems.LoginIsSet | src/connector.rs:1417-1459 | A login that was set successfully is the one reported |
| SecureChannelTheorems.CacheIsFresh | src/connector.rs:243-260 | In every run, each cached SCP11 key was stored by a successful attempt after the last noticed reconnection, the last SCP11 administration and its own last eviction |
| SecureChannelTheorems.CacheRefinesUncached | src/connector.rs:917-962 | For a card unaffected by a failed attempt, SCP11 establishment with the cache succeeds whenever it would without, and exactly when the cached or the uncached attempt does |
| SecureChannelLogin.LoginOpensChannel | src/connector.rs:1269-1392 | From every state of the invariant, whatever other applets do meanwhile, preparing a login and establishing the channel succeeds on a card that selects, loads keys and authenticates: the session is the one the card gave, its protocol and description are those of the chosen credential, or of the configured protocol without one, and the applet is enabled and started |
| SecureChannelLogin.LoginEnds | src/connector.rs:1315-1404 | From every state of the invariant, whatever other applets do meanwhile: exactly when finishing, losing or clearing a login closes the channel, keeps the credential and forgets that a channel was opened |
| SecureChannelLogin.PreparedRun | src/connector.rs:1269-1313 | After the prepare the applet has exactly the protocol and credential of the login, is disabled and not started, and has no session |
| SecureChannelLogin.EnsureDecides | src/connector.rs:797-848 | What ensuring the selection answers, from the flags: a refused SELECT, then a login without credential or session, a disabled started channel, or a lost one that must not be recreated, and otherwise success or a handshake |
| SecureChannelLogin.ReadySends | src/connector.rs:964-993 | An applet with a live session on a standing connection sends its APDU once, protected by that session, and an answer is success |
| SecureChannelLogin.ReadyTransmits | src/connector.rs:1162-1187 | The same for raw bytes, which fail when they do not decode or the reply does not fit |
| SecureChannelLogin.ReadyAdministers | src/connector.rs:1461-1552 | An administration succeeds with its one protected command, and only an SCP11 one forgets the cached card keys |
| SecureChannelLogin.LossEndsTheChannel | src/connector.rs:977-993 | A lost or refused application APDU drops the selection, disables the applet and takes its credential; a lost administration command drops only the selection |
| SecureChannelLogin.PlainSends | src/connector.rs:964-973 | A plain applet that is not refused sends its APDU once, in plain, and an answer is success; without one only the selection is dropped |
| SecureChannelLogin.PlainTransmits | src/connector.rs:1162-1187 | The raw bytes of a plain applet are sent as they are, whether or not they decode |
| SecureChannelLogin.LoginCanBeSet | src/connector.rs:1417-1459 | A login can be set whenever the applet can be selected, is not refused, needs no handshake and the connection stands, and can always be dropped |
| SecureChannelLogin.RefreshLeaves | src/connector.rs:1189-1247 | What a refresh answers and leaves in each case: failed or absent device, stable topology, a protected login, and selecting again |
| SecureChannelLogin.Scp03Apdus | src/connector.rs:849-875 | SCP03 sends its own handshake and nothing else before the session |
| SecureChannelLogin.Scp11Apdus | src/connector.rs:917-962 | SCP11 sends the handshake of its variant last, directly with a fixed or cached card key, and otherwise after the issuer domain and the applet were selected |
| SecureChannelLogin.SessionFollowsItsHandshake | src/connector.rs:849-915 | In every run the protocol recorded for a live session is that of the last handshake, which was sent to its applet |
| SecureChannelRuns.StepInv | src/connector.rs:797-1552 | Every call of every applet, with the connection replaced anywhere in it, keeps the reader invariant: selection and session agree with what was sent and replaced, the cache is fresh, the started flags are the open channels |
| SecureChannelRuns.StepLocal | src/connector.rs:797-1552 | No call of one applet changes another applet's flags, credentials or unfinished call, sends an APDU through it or gives it a session |
| SecureChannelRuns.RunInv | src/connector.rs:797-1552 | The reader invariant holds in every state of every run |
| SecureChannelRuns.OpenScp11Trace | src/connector.rs:917-962 | An SCP11 establishment leaves the cache equal to what the trace says was stored and not evicted, and on success the applet is the one selected last |
| SecureChannelRuns.RefreshInv | src/connector.rs:1189-1247 | A refresh with any outcome, and with replacements and queries of other threads around its SELECT, keeps the reader invariant |
| SecureChannelRuns.AdministerInv | src/connector.rs:1461-1552 | A security-domain administration with any outcome keeps the reader invariant |
| SecureChannelRuns.DiscoverInv | src/context.rs:2360-2405 | Discovery of an applet, which selects it outside its own calls, keeps the reader invariant |
| PcscReader.Reader.constructor | src/connector.rs:311-320 | A new reader has made no calls and is in the initial state |
| PcscReader.Reader.Reached | src/connector.rs:797-1552 | Every reader object, whatever calls were made on it, meets the invariant of every run |
| PcscReader.Reader.SynchronizeConnection | src/connector.rs:243-256 | A changed epoch drops the selection and the cached keys; an unchanged one changes nothing |
| PcscReader.Reader.Wait | src/connector.rs:460-473 | Replacements of the connection and queries between calls are one step of the run |
| PcscReader.Reader.SelectApplication | src/scp03.rs:925-940 | One SELECT is sent, accepted or not; an AID outside 5 to 16 bytes is refused without sending |
| PcscReader.Reader.FetchCertificates | src/scp11.rs:224-253 | The issuer domain is selected, the applet again also when the domain refused, and only then it authenticates |
| PcscReader.Reader.Authenticate | src/scp11.rs:205-253 | The APDUs of one SCP11 attempt with and without a cached or fixed card key |
| PcscReader.Reader.EstablishScp11 | src/connector.rs:917-962 | The state is that of the specification: cached attempt, eviction and one uncached retry, then storing a validated key |
| PcscReader.Reader.NegotiateIfNeeded | src/connector.rs:815-915 | The state is that of the specification: the refusals in order, the protocol's attempt, and on failure a cleared selection, a disabled applet and a dropped credential |
| PcscReader.Reader.SelectAgain | src/connector.rs:801-813 | The selection is cleared, the SELECT sent and, when it is accepted, recorded at the epoch read after it, with the connection replaced anywhere between |
| PcscReader.Reader.EnsureSelected | src/connector.rs:797-815 | The state is that of the specification: synchronize with the base epoch, select when another applet is selected, then open the channel |
| PcscReader.Reader.ExchangeApdu | src/connector.rs:964-1024 | One APDU or none, plain for an applet without an active enabled protocol and protected otherwise; a failure drops the selection, and a protected one also disables the applet and drops its credential |
| PcscReader.Reader.SendApdu | src/connector.rs:1153-1156 | The call is one step of the run, and once the channel has started it succeeds only with a protected APDU of the live session and never sends a plain one |
| PcscReader.Reader.TransmitBytes | src/connector.rs:1162-1187 | The call is one step of the run, and protected or refused like a send; it also fails, with the session kept, when the reply does not fit the buffer |
| PcscReader.Reader.AdministerSecurityDomain | src/connector.rs:1461-1552 | The call is one step of the run; it sends only a protected APDU, if any, and succeeds only with it; a command refused before sending drops the selection |
| PcscReader.Reader.RediscoverApplet | src/connector.rs:1217-1245 | The state is that of the specification, with replacements and queries of other threads before and after the SELECT |
| PcscReader.Reader.RefreshApplet | src/connector.rs:1189-1247 | The call is one step of the run; when it succeeds, a login is kept if and only if the device is present, the epoch was current and none is published during the refresh |
| PcscReader.Reader.DiscoverApplet | src/context.rs:2360-2405 | The probe is one step of the run; an accepted one selects the applet without login or session and registers it as given if it is new; otherwise nothing changes |
| PcscReader.Reader.ClearSecureChannelLocked | src/connector.rs:1026-1053 | Clearing disables the applet and, if it is selected, forgets its session and login; another applet's selection stays |
| PcscReader.Reader.PrepareLogin | src/connector.rs:1269-1313 | A resolved login is two steps of the run, after which the applet has the protocol and credential of the login, no session, and is disabled and not started; an unresolved one changes nothing |
| PcscReader.Reader.FinishSecureChannelLogin | src/connector.rs:1315-1323 | A successful login keeps session and flags and, without session recreation, drops the credential; a failed one leaves the applet without session, credential and started flag, as steps of the run |
| PcscReader.Reader.ReconcileLostLogin | src/connector.rs:1358-1368 | A lost login leaves no session, credential or enabled flag and keeps the started flag, unless sessions are recreated, when nothing changes |
| PcscReader.Reader.ClearSecureChannelForLogin | src/connector.rs:1370-1376 | Two steps of the run, after which the applet has no session, is disabled and not started, and keeps its protocol and credential |
| PcscReader.Reader.EstablishSecureChannel | src/connector.rs:1378-1392 | The call is one step of the run; another applet's AID is refused without effect; the applet is enabled exactly on success, and then has a live session if it has an active protocol |
| PcscReader.Reader.ClearSecureChannel | src/connector.rs:1394-1404 | Two steps of the run, after which the applet has no session, no credential and is not started |
| PcscReader.Reader.CcidLoginState | src/connector.rs:1406-1415 | The login reported is that of the selection, and public when the base epoch has moved |
| PcscReader.Reader.SetCcidLoginState | src/connector.rs:1417-1459 | The call is one step of the run; a login that was set is reported, and no other applet reports one |
| CtapHid.RoundTrip | src/ctap_hid.rs:470-575 | For every payload up to 7609 bytes, among any reports of other channels and after any valid keepalives, reading the packetized message returns the payload and leaves exactly what follows |
| CtapHid.AcceptedIsPacketized | src/ctap_hid.rs:506-575 | Conversely, whatever is accepted came as valid keepalives, then the packetization of the result up to padding, then what is left |
| CtapHid.ReadIgnoresNoise | src/ctap_hid.rs:506-575 | Reports of other channels change neither the result nor what is left for this channel |
| CtapHid.KeepalivesAreSkipped | src/ctap_hid.rs:533-538 | Any number of valid keepalives before a message changes nothing |
| CtapHid.MessageRoundTrip | src/ctap_hid.rs:470-575 | Reading the reports of a message returns the message and leaves the rest |
| CtapHid.RestConverse | src/ctap_hid.rs:549-573 | Accepted continuation reports carry the rest of the response in sequence, and the sequence counter stays below 128 |
| CtapHid.ReportFormat | src/ctap_hid.rs:470-504 | The bytes of every report: channel, command with the high bit and big-endian length, or sequence number, then the payload in order and zeros |
| CtapHid.DecisiveDecides | src/ctap_hid.rs:506-548 | The first report of the channel that is not a keepalive decides: the channel counts as disowned if and only if it is an error report of one byte 0x0b; any report but one of the expected command fails and is the last one read |
| CtapHid.ShortMessageIsRead | src/ctap_hid.rs:506-552 | A decisive report that holds a whole message of the expected command is that message |
| CtapHidTransport.CopyInto | src/ctap_hid.rs:480-500 | Bytes are copied into the buffer at an offset and nothing else changes |
| CtapHidTransport.Packetize | src/ctap_hid.rs:470-504 | Succeeds exactly for commands below 128 and payloads up to 7609 bytes, with the initial and continuation reports of the payload |
| CtapHidTransport.FillInitial | src/ctap_hid.rs:479-485 | An initial report: channel, command, length, up to 57 bytes, zero padding |
| CtapHidTransport.FillContinuation | src/ctap_hid.rs:487-502 | A continuation report: channel, sequence, up to 59 bytes, zero padding |
| CtapHidTransport.Transport.ReceiveMessage | src/ctap_hid.rs:506-575 | The loop over the report stream computes the specified reading |
| CtapHidTransport.Transport.ReceiveRest | src/ctap_hid.rs:549-573 | The continuation loop computes the specified reading, with a byte-sized sequence counter that never overflows |
| CtapHidTransport.Transport.WriteMessage | src/ctap_hid.rs:458-468 | All reports are written, or as many as the device took; a message that cannot be packetized is refused before anything is written |
| CtapHidTransport.SentExactly | src/ctap_hid.rs:458-504 | What is written and answered for every command and payload, with the bounds in numbers |
| CtapHidTransport.Transport.Exchange | src/ctap_hid.rs:439-456 | A request is written and the response read, or refused or failed as specified |
| CtapHidTransport.Transport.InitializeChannel | src/ctap_hid.rs:411-437 | A channel is granted exactly when the reply repeats the nonce and names a channel that is neither zero nor broadcast |
| CtapHidTransport.ParseInitExactly | src/ctap_hid.rs:411-437 | Which answers grant a channel, and which of their bytes is which field |
| CtapHidTransport.Transport.Disconnect | src/ctap_hid.rs:169-174 | Disconnecting drops the device and its channel |
| CtapHidTransport.Transport.Reconnect | src/ctap_hid.rs:150-167 | The connection is replaced exactly when the new device grants a channel and supports CBOR; otherwise nothing of the old one changes |
| CtapHidTransport.Transport.Transact | src/ctap_hid.rs:237-269 | The state and result are those of the specified transaction |
| CtapHidTransport.FailuresOfATransaction | src/ctap_hid.rs:237-269 | Which requests are refused unchanged, and that every other failure is a device error and leaves no channel |
| CtapHidTransport.TransactionMeaning | src/ctap_hid.rs:237-269 | A response was read on the channel allocated afterwards; the request was written once, or once more only after the device disowned the channel; a failed well-formed request leaves the transport disconnected |
| CtapHidTransport.AnswerIsReturned | src/ctap_hid.rs:237-269 | A device that answers with a packetized response, after keepalives and among other channels, has it returned by the transaction |
| CtapHidTransport.WrittenOnceUnlessDisowned | src/ctap_hid.rs:237-269 | Unless the decisive report disowns the channel, exactly one copy of the request is written, as far as the device takes it, and any failure disconnects |
| CtapHidTransport.GrantedChannel | src/ctap_hid.rs:411-437 | A report with the nonce, an acceptable channel and the CBOR capability grants that channel, with its versions and capabilities |
| CtapHidTransport.RenewedChannelAnswers | src/ctap_hid.rs:237-269 | A device that disowns the channel, grants a new one that supports CBOR and answers there has that answer returned, and the transport goes on with the new channel |
| Iso7816.PlanDeliversTheCommand | src/iso7816.rs:71-125 | For every data length and capabilities, an abstract card that accumulates chained segments receives exactly the class, instruction, parameters, data and Le of the one command |
| Iso7816.SegmentShape | src/iso7816.rs:100-123 | Segments have 1 to 255 bytes, all but the last are full, chained and without Le, the last has the original class and Le |
| Iso7816.PlanExactly | src/iso7816.rs:71-98 | A plan exists if and only if the command is short, the card takes extended lengths, or it chains and class and Le allow it; the code of each refusal; several commands only for chaining without extended lengths, an extended one only with them |
| Iso7816.PlaySendsThePlan | src/iso7816.rs:71-125 | Only planned commands are sent, in order, and success means all were sent and the last reply is the result |
| Iso7816.PlaySucceedsExactly | src/iso7816.rs:100-125 | A plan plays to the end if and only if every command can be encoded and is answered, all but the last with an empty 9000 |
| Iso7816.PlayFails | src/iso7816.rs:71-125 | A plan that fails was refused for a length after answers in order, or is a device error |
| Iso7816.CollectIsBounded | src/iso7816.rs:144-179 | Collection sends at most 256 continuation commands, whatever the card answers, none once there is too much data, and fails only as a device error |
| Iso7816.CollectIsExact | src/iso7816.rs:144-190 | A collected result is the concatenation of the replies in order, at most 65536 bytes, and its status does not ask for more |
| Iso7816.CollectSucceeds | src/iso7816.rs:144-190 | A chain of at most 256 continuations and 65536 bytes is collected: all the data with the last status, each continuation asking for what the reply before announced |
| Iso7816.CollectedChains | src/iso7816.rs:144-190 | Conversely whatever is collected is such a chain |
| Iso7816.ServedBody | src/iso7816.rs:144-190 | A body served in full 256-byte segments is returned intact, even when the first reply was empty, if and only if it has at most 65536 bytes |
| Iso7816Connector.Connector.TransmitApdu | src/iso7816.rs:71-84 | An encodable command is sent once and answered by the next reply; another one is refused without sending |
| Iso7816Connector.Connector.TransmitCommand | src/iso7816.rs:71-125 | Sends exactly the plan of the command as far as the replies allow, or is refused without sending |
| Iso7816Connector.Connector.CollectResponseChain | src/iso7816.rs:144-179 | The collection loop computes the specified collection |
| Iso7816Connector.Connector.TransmitWithCapabilities | src/iso7816.rs:45-69 | The whole exchange is the specified one: the command, once more with the corrected Le, and the response chain |
| Iso7816Connector.ConverseIsComplete | src/iso7816.rs:45-69 | A result never asks for more nor exceeds 65536 bytes; all planned commands were sent, once more with the Le that a 6Cxx status names, 256 for zero, then at most 256 continuations |
| Atr.HistoricalBytes | src/iso7816.rs:215-237 | The parser computes the specified historical bytes on every byte string, without leaving it |
| Atr.WellFormedAtr | src/iso7816.rs:215-237 | On every well-formed answer to reset, with any number of interface-byte groups and any tail, the result is exactly the historical bytes |
| Atr.AcceptedAtr | src/iso7816.rs:215-237 | Conversely, whatever is accepted is the encoding of interface groups and the returned historical bytes |
| Atr.NibblesAreBits | src/iso7816.rs:218-232 | The two halves of an interface byte are its bits 4 to 7 and its bits 0 to 3 |
| Atr.ApduCapabilities | src/iso7816.rs:192-213 | The loop computes the specified walk over the historical bytes |
| Atr.FirstCapabilitiesWin | src/iso7816.rs:192-213 | The first tag-7 length-3 entry gives the capabilities, whatever entries precede it and bytes follow |
| Atr.NoCapabilities | src/iso7816.rs:192-213 | Without such an entry, also when the last entry is cut short, there are none |
| Atr.CapabilitiesComeFromAnEntry | src/iso7816.rs:192-213 | Reported capabilities come from the first such entry after well-formed ones |
| CertificateBundle.DecodeCertificate | src/certificate_bundle.rs:20-27 | A certificate is accepted exactly when parsing and encoding it again gives the same bytes |
| CertificateBundle.EncodeBundle | src/certificate_bundle.rs:29-47 | The encoding loop writes the bundle of the list; it is refused exactly when it is empty or some certificate does not come back from parsing as the same bytes |
| CertificateBundle.CountFits | src/certificate_bundle.rs:57-63 | The count bound never rejects an encoded bundle |
| CertificateBundle.ReadCertificates | src/certificate_bundle.rs:64-70 | The decoding loop collects exactly the certificates of a bundle |
| CertificateBundle.DecodeBundle | src/certificate_bundle.rs:49-75 | For every input and every list, decoding gives the list if and only if encoding the list gives the input, although the reader accepts longer heads |
| CertificateBundle.X509IsValid | src/certificate_bundle.rs:6-7 | The X.509 schema name and version meet what the results ask of a format |
| CborMap.ReadAll | src/backed_object.rs:584-632 | The loop over the entries of a map computes the specified reading, which stops at a repeated key |
| CborMap.ChunksRead | src/backed_object.rs:584-632 | Reading any chunks of input that each read as an entry, in whatever head forms, gathers the entries and leaves what follows, and fails when a key repeats |
| CborMap.ReadAsChunks | src/backed_object.rs:584-632 | Conversely, whatever is read came as such chunks |
| CborMap.EntriesPermute | src/backed_object.rs:584-632 | Reordered chunks hold the same entries |
| CborMap.GatherIgnoresOrder | src/backed_object.rs:584-632 | The gathered fields do not depend on the order of the entries |
| CborMap.GatherMeaning | src/backed_object.rs:584-632 | Gathering succeeds if and only if no key repeats, and every field is then the entry with that key |
| Cbor.HeadFormat | src/backed_object.rs:186-264 | Heads are written in their shortest form, major type in the high bits and the argument big-endian |
| Cbor.Utf8Exactly | src/backed_object.rs:584-632 | Text is accepted if and only if it is the encoding of some Unicode scalar values |
| PublicKeyEntries.EntryRoundTrip | src/backed_object.rs:584-632 | Each key and value is read back from its encoding, whatever follows |
| PublicKeyEntries.EntryIsLocal | src/backed_object.rs:584-632 | What is read for a key and its value depends only on the bytes consumed, in whatever head forms they are |
| PublicKeyMaterial.DecodePublicKey | src/backed_object.rs:568-714 | The decoder computes the specified decoding |
| PublicKeyMaterial.RoundTrip | src/backed_object.rs:186-264 | Every key whose type matches its kind (RSA, EC, ML-DSA, ML-KEM, hybrid, with or without a relying-party identifier) comes back from its encoding |
| PublicKeyMaterial.DecodeIgnoresOrder | src/backed_object.rs:568-638 | Reordering the chunks of an input, in whatever head forms they are, does not change what it decodes to |
| PublicKeyMaterial.DecodeDependsOnEntries | src/backed_object.rs:568-638 | Inputs with the same entries decode alike, in any order and with any forms of their heads |
| PublicKeyMaterial.DecodeOfChunks | src/backed_object.rs:568-714 | A map head in any form and any chunks fail to decode on trailing bytes and repeated keys, and otherwise depend only on the fields |
| PublicKeyMaterial.DecodedAsChunks | src/backed_object.rs:568-714 | Every input that decodes is a map head and chunks with nothing behind them, no repeated key and all seven required keys |
| PublicKeyMaterial.DecodedExactly | src/backed_object.rs:568-714 | In any order and head form, entries decode to a key if and only if no key repeats and they name this schema and version 1 and spell the key, with the key type, kind, bytes and flag that belong together |
| PublicKeyMaterial.MaterialExactly | src/backed_object.rs:639-714 | The kind, key type, byte strings and prefix flag of every kind of key |
| PublicKeyMaterial.DecodedIsStable | src/backed_object.rs:568-714 | Whatever decodes is valid, and encoding it again decodes to the same key |
| PublicKeyMaterial.MinimalBytesRoundTrip | src/backed_object.rs:189-194 | The big-endian bytes of an RSA number give the number back |
| Schemas.SchemasAreAscii | src/backed_object.rs:12 | The two schema names meet what the results ask of a context |
| DataObject.DecodeDataObject | src/backed_object.rs:318-375 | For every input and object, decoding gives the object if and only if the object is valid and its encoding is the input, although the reader accepts longer heads |
| DataObject.EncodedParses | src/backed_object.rs:280-375 | The ten items of an encoded object read back as that object |
| DataObject.CommonRoundTrip | src/backed_object.rs:300-346 | Name, identifier and privacy read back, whatever follows |
| DataObject.BodiesRoundTrip | src/backed_object.rs:300-352 | The four byte strings read back, with nothing left over |
| DataObject.ParsedIsStorable | src/backed_object.rs:324-366 | Whatever the items describe can be encoded again |
| ObjectStore.Store.constructor | src/storage.rs:287-298 | A new store is empty |
| ObjectStore.Store.PutObject | src/storage.rs:331-345 | Writing is idempotent, never replaces other bytes, and refuses what is not CBOR |
| ObjectStore.PutRefuses | src/storage.rs:331-345 | Each refusal of a write exactly when it is due, and none changes the store |
| ObjectStore.Store.PutBackedObject | src/backed_object.rs:462-474 | An answer is the address of the record, with record and registration stored under their addresses; nothing else is added or lost; and the call answers whenever the object can be stored, its bytes are well formed, no address conflicts and no write fails |
| ObjectStore.Store.StoredObjects | src/backed_object.rs:941-963 | The listing loop computes the specified listing |
| ObjectStore.NoDanglingReference | src/backed_object.rs:411-474 | In every run of any number of callers, each cut off at any write, with listed objects deleted at any time, every stored derived key's registration is stored |
| ObjectStore.ListingSucceeds | src/backed_object.rs:875-963 | So in every such state listing succeeds and returns exactly the stored objects, in order |
| ObjectStore.ListingExactly | src/backed_object.rs:941-963 | Listing succeeds exactly when every entry can be listed; otherwise the first that cannot decides the error |
| ObjectStore.InvStep | src/backed_object.rs:377-474 | Every single write, cut and deletion keeps the store and all unfinished calls sound |
| ObjectStore.PutAllStores | src/backed_object.rs:462-474 | A call that completes stores its object and dependencies under their addresses and changes nothing else |
| ObjectStore.BackedIsStored | src/backed_object.rs:377-474 | The same by constructor, with the refusals of an immutable store, of an object that cannot be stored and of a derived key that names another registration |
| ObjectStore.WritesAreTheCall | src/backed_object.rs:462-474 | The separate writes of a call, uninterrupted, leave what the whole call leaves |
| OceChain.FindIssuers | src/ccid_auth.rs:244-262 | The candidate loop computes the specified matches, with errors in list order; `IssuersExactly` says from the certificates which they are |
| OceChain.IssuersExactly | src/ccid_auth.rs:244-262 | The list can be compared exactly when every subject, and every named issuer, can be read, and then keeps exactly the entries with the issuer's name, a compatible key identifier and a verifying key |
| OceChain.Build | src/ccid_auth.rs:219-290 | The chain loop terminates for every list, computes the specified extension of the leaf, and answers a chain if and only if the certificates determine it |
| OceChain.BuiltExactly | src/ccid_auth.rs:219-290 | The result is a chain if and only if it is the path from the leaf along unique valid CA issuers, never repeating a certificate, to one after which nothing follows |
| OceChain.BuiltFromCertificates | src/ccid_auth.rs:219-290 | From the certificates alone: a chain is built if and only if every certificate and the list can be read, each is issued by the next (names, key identifiers and signature), the only list entry that does and a CA that may sign, none repeats, and the last is issued by no entry or only by a self-issued CA |
| OceChain.NextExactly | src/ccid_auth.rs:229-283 | A certificate is followed exactly by its sole issuer, if that is a CA that may sign and not self-issued |
| OceChain.StopExactly | src/ccid_auth.rs:262-283 | Nothing follows it exactly when no entry issues it, or only a self-issued CA does |
| OceChain.FailExactly | src/ccid_auth.rs:262-280 | Two issuing entries are ambiguous, and a sole issuer that may not sign is refused, each with its error |
| OceChain.ErrorsExactly | src/ccid_auth.rs:219-290 | Which error each unreadable, expired or self-issued certificate, each entry that cannot be compared and each repeated certificate gives |
| OceChain.ChainMeaning | src/ccid_auth.rs:219-290 | A built chain is leaf first, without duplicates, all valid and not self-issued, each certificate name-matched and signature-verified by the next, every non-leaf a listed CA |
| OceChain.LinkMeaning | src/ccid_auth.rs:229-283 | A link goes to the one matching list entry, a CA certificate that may sign, and every other entry does not match |
| OceChain.LengthTestNeverFires | src/ccid_auth.rs:284-286 | Once the new certificate is not in the chain, the length test cannot fail |
| OceChain.OrderIsIrrelevant | src/ccid_auth.rs:219-290 | Reordering the intermediates changes neither whether a chain is built nor which one |
| OceChain.MatchesMeaning | src/ccid_auth.rs:244-262 | Matching fails if and only if some entry cannot be read, and otherwise keeps every occurrence of a matching entry and nothing else |
| DeviceBinding.OperationsAreBracketed | src/device.rs:129-183 | In every interleaving of HID and CCID operations, rebinds and refreshes, a CCID operation is alone in the gate, and the begins and ends of each reader pair up, except the begin of the running operation |
| DeviceBinding.ActiveOperationBlocksOnlyRebinding | src/connector.rs:460-535 | In every run a begin inside the gate never finds another active operation, and a rebind is refused exactly while one is active |
| DeviceBinding.RefreshMeansIdentified | src/connector.rs:537-577 | In every run a successful refresh means the bound reader's present generation was identified as this serial, and published epochs never go back and differ for different accepted generations |
| DeviceBinding.MismatchLasts | src/connector.rs:537-577 | After a refresh found another serial, no refresh succeeds, whatever happens, until the reader is identified as this serial again or another is bound |
| DeviceBinding.ExclusiveStep | src/connector.rs:412-535 | Every step of every thread keeps the gate exclusive and the trace bracketed |
| DeviceBinding.IdentifiedStep | src/connector.rs:460-577 | Every step keeps the bound generation identified and the accepted epochs ordered |
| DeviceBinding.RefreshExactly | src/connector.rs:537-577 | What a refresh answers, and what it leaves of every field, from what the reader did |
| DeviceBinding.BindingExactly | src/connector.rs:460-524 | A rebind or claim is refused exactly while an operation has a reader; what a rebind leaves of every field |
| DeviceBinding.OperationBegins | src/connector.rs:497-523 | An operation that nothing comes between has the gate, claims the bound reader and begins it; each of its steps is enabled |
| DeviceBinding.OperationEnds | src/connector.rs:526-535 | Its end is on the claimed reader and leaves everything else as it was; without a claim nothing is ended |
| DeviceBinding.HidOperationsShare | src/device.rs:129-183 | HID operations share the gate and keep CCID operations out until the last has left |
| DeviceBinding.NextRefresh | src/connector.rs:460-495 | What the inventory, a rebind and taking a mismatch mean for the next refresh |
| DeviceBinding.ReconnectedIsIdentifiedAgain | src/connector.rs:537-577 | After the bound reader was reconnected a refresh succeeds only by identifying it again |
| DeviceBinding.CountOpen | src/connector.rs:497-535 | In a bracketed trace each reader has as many ends as begins, plus one begin if it is open |
| SplitRefresh.ClaimedRefreshIdentifies | src/connector.rs:537-577 | In every run of separate steps, with claimed and unclaimed refreshes mixed, a claimed refresh that succeeds is right in every world the run agrees with if and only if it identified the reader anew or the recorded generation of the bound reader was itself identified |
| SplitRefresh.KnownExactly | src/connector.rs:537-577 | Over every run, a reader holds this device at a generation in every world the run agrees with if and only if it was identified there |
| SplitRefresh.OrderlyRun | src/connector.rs:412-577 | In every mixed run a claim is of the bound reader and of the one CCID operation, and a refresh made under it is about that reader |
| SplitRefresh.SoundRun | src/connector.rs:460-577 | The recorded generation of the bound reader stays identified through a run if and only if no step of it records a place that was not identified |
| SplitRefresh.SoundStep | src/connector.rs:460-577 | A step loses an identified record if and only if it records such a place, and a step that writes the record makes it identified unless it does |
| SplitRefresh.OwnResultIsSound | src/connector.rs:460-576 | A result about the bound reader, identified in the generation it is recorded for, never spoils the record, and neither does binding a reader in the generation it was found in |
| SplitRefresh.RecordIsRightExactly | src/connector.rs:460-576 | Recording a result or binding a reader is right in every world the run agrees with if and only if the place it records was identified |
| SplitRefresh.UndisturbedIsRefresh | src/connector.rs:537-577 | Undisturbed, the separate steps are the one-step refresh |
| SplitRefresh.GuardsPass | src/connector.rs:497-535 | An operation that is entered and left changes nothing, and claims the bound reader exactly when it is a CCID operation and the device is there |
| SplitRefresh.AllClaimedIdentify | src/connector.rs:537-577 | When every refresh of a run is made inside a CCID operation that claimed its reader, and readers are bound in a generation they were found in, each success is right in every world the run agrees with |
| SplitRefresh.UnclaimedRefreshCanMistake | src/connector.rs:460-577 | From every state in which the device is present, no reader is claimed and no refresh is under way, inside whatever operation, a run in which a rebind comes between the steps of a refresh and a later refresh succeeds with another device in the reader |
| SplitRefresh.PastRun | src/connector.rs:460-577 | In every run what was identified was a generation that its reader has had, as the run above asks |
| SplitRefresh.HidRefreshCanMistake | src/backend/ctap.rs:360-367 | Such a run inside a HID operation, which never claims |
| SplitRefresh.AbsentBeginCanMistake | src/connector.rs:497-507 | Such a run inside a CCID operation that began while the inventory had lost the device |
| SplitRefresh.ClaimedRefreshCanMistake | src/connector.rs:547-553 | Such a run whose last refresh lies wholly inside a CCID operation that claimed its reader, after an earlier unclaimed one |
| SplitRefresh.LateRebindCanMistake | src/connector.rs:460-473 | Such a run in which every refresh is claimed and a reader is bound after the generation it was found in |
| DeviceSessions.MetExactly | src/connector.rs:460-577 | The published epoch grows by one exactly when another reader is bound or a new generation accepted, and the connection is replaced without it exactly when the bound reader moves to a generation not accepted |
| DeviceSessions.ClaimKeepsReader | src/connector.rs:460-535 | While an operation has claimed its reader, APDUs go to that reader |
| DeviceSessions.DeviceDrivesReader | src/connector.rs:645-678 | Every run of the device is something the applets can meet, and leads them to its epoch and its reader and generation |
| DeviceSessions.ProtectedOnItsReader | src/connector.rs:964-993 | In every run a protected APDU goes to the reader and generation on which its session was established, unless the connection was replaced after the call's entry check or silently |
| DeviceConnector.CcidDevice.constructor | src/connector.rs:434-454 | A new device is bound to its reader at the reader's generation, present, at epoch 0 |
| DeviceConnector.CcidDevice.BindReader | src/connector.rs:460-473 | A rebind is refused during an operation, and otherwise binds, forgets a mismatch and advances the epoch |
| DeviceConnector.CcidDevice.MarkInventoryAbsent | src/connector.rs:475-478 | Only the inventory flag changes |
| DeviceConnector.CcidDevice.MarkInventoryPresent | src/connector.rs:480-483 | Only the inventory flag changes |
| DeviceConnector.CcidDevice.TakeMismatchedSerial | src/connector.rs:485-490 | The mismatched serial is returned once |
| DeviceConnector.CcidDevice.SelectedConnector | src/connector.rs:492-495 | The active reader, or the bound one |
| DeviceConnector.CcidDevice.BeginOperation | src/connector.rs:497-524 | Begins on the bound reader, or nothing when absent; a failed begin leaves everything as it was |
| DeviceConnector.CcidDevice.EndOperation | src/connector.rs:526-535 | Ends on the reader that was begun, if any |
| DeviceConnector.CcidDevice.RefreshCurrent | src/connector.rs:537-577 | The state is that of the specification: absence, reader failure, unchanged generation, failed identification, another serial, accepted |
| DeviceConnector.Gate.constructor | src/device.rs:78-88 | A new gate is free |
| DeviceConnector.Gate.LockOperation | src/device.rs:129-153 | A granted guard begins a CCID operation; a failed begin releases the lock without an end |
| DeviceConnector.Gate.DropGuard | src/device.rs:177-183 | Dropping a guard ends the CCID operation and then releases the lock |
| DeviceConnector.BeginThenEnd | src/connector.rs:497-535 | A granted and dropped guard leaves the binding as it was and adds a begin and an end on the same reader, or nothing when absent |
| DeviceConnector.BegunBySteps | src/connector.rs:497-524 | Beginning in one call is what the separate interleaved steps do |
| HttpEpoch.EpochCountsEvents | src/connector.rs:2519-2831 | In every run the epoch plus the discovery calls inside their window counts every generation change, discovered absence and disconnect exactly once |
| HttpEpoch.LossesCountOnce | src/connector.rs:2510-2527 | A loss advances the epoch exactly when it ends a connection or a presence, and repeated changes nothing |
| HttpEpoch.EqualEpochs | src/connector.rs:2597-2607 | When two reads agree, nothing happened between them if and only if no more discovery calls are inside their window at the second read than at the first |
| HttpEpoch.FenceHoldsOutsideWindow | src/connector.rs:2597-2607 | When no discovery call is between publishing a generation and advancing the epoch at the second read, equal epochs mean that nothing happened between |
| HttpEpoch.EqualSplitReads | src/connector.rs:2597-2607 | With each read taken as two loads and anything between the loads, agreeing reads had nothing between them if and only if no more discovery calls are inside their window at the start of the second read than at the end of the first |
| HttpEpoch.FenceIsDownInWindow | src/connector.rs:2784-2801 | Inside the window a new generation is visible at the old epoch |
| HttpEpoch.VersionIsCurrent | src/connector.rs:2581-2596 | In every run a reported firmware version was set after the last generation change |
| HttpEpoch.ReportedExactly | src/connector.rs:2581-2596 | A version is the one to report if and only if it was set and no generation changed since |
| HttpEpoch.DiscoveredLikeStatus | src/connector.rs:2764-2820 | Without interference a discovery does to the fence what a status report does |
| HttpConnector.Endpoint.constructor | src/connector.rs:2496-2508 | A new endpoint is disconnected at epoch 0 |
| HttpConnector.Endpoint.InstallHttpAgent | src/connector.rs:2510-2517 | Installing an agent connects and counts nothing |
| HttpConnector.Endpoint.LoseAgent | src/connector.rs:2519-2527 | The connection is lost, and the loss recorded in the endpoint's history, only if an agent was installed |
| HttpConnector.Device.constructor | src/connector.rs:2867-2889 | A new connector has seen nothing and reports no version |
| HttpConnector.Device.ConnectionEpoch | src/connector.rs:2597-2606 | The epoch is the number of disconnects in the endpoint's history plus the number of generation changes and absences in the device's |
| HttpConnector.Device.FirmwareVersion | src/connector.rs:2581-2588 | A version is reported if and only if it was set and no generation changed since |
| HttpConnector.Device.Disconnect | src/connector.rs:2738-2740 | The state is that of the specification for a disconnect |
| HttpConnector.Device.SetDeviceInfoVersion | src/connector.rs:2589-2596 | Only the version changes |
| HttpConnector.Device.AdoptStatus | src/connector.rs:2803-2820 | Another serial is refused; a new generation forgets the version and advances the epoch |
| HttpConnector.Device.LoseDiscovery | src/connector.rs:2822-2831 | A discovered absence advances the epoch once |
| HttpConnector.Device.AdoptDiscovered | src/connector.rs:2764-2801 | Only a present, connected connector of the same serial and endpoint is adopted, with its generation |
| SlotRegistry.AuthSlots.constructor | src/auth_slots.rs:29-34 | A new registry is empty |
| SlotRegistry.AuthSlots.Prune | src/auth_slots.rs:125 | Exactly the entries of live slots are kept, in order |
| SlotRegistry.AuthSlots.Register | src/auth_slots.rs:104-135 | Dead slots are dropped, then the slot's entry is overwritten in place or appended |
| SlotRegistry.SlotsInOrder | src/auth_slots.rs:104-135 | Over any history of registrations, the registry is the first-registration order without the slots dead at the last one |
| SlotRegistry.SlotsAreDistinct | src/auth_slots.rs:104-135 | Over any history, no slot occurs twice |
| SlotRegistry.EntriesAreLatest | src/auth_slots.rs:104-135 | Over any history, each entry is its slot's latest registration |
| SlotRegistry.SortIsStable | src/auth_slots.rs:98-101 | The search order is sorted by tier, and each tier is in registration order |
| CredentialSearch.SearchEntries | src/auth_slots.rs:178-298 | The nested loops compute the specified search, with the slots reached and the credentials offered; the caller's answers may depend on what it was offered before |
| CredentialSearch.OfferKeys | src/auth_slots.rs:236-260 | The loop over a slot's keys offers them in turn until one decides |
| CredentialSearch.FindOrdinaryCredential | src/auth_slots.rs:178-298 | A label that is not text fails before any slot is looked at; otherwise the specified search over the live slots, which reaches only slots that are not the target, match the selector and are not native, and offers only their points or what the selector names |
| CredentialSearch.SearchOrder | src/auth_slots.rs:77-102 | Live slots are visited by their tier now, or the registered one while busy, and within a tier as registered |
| CredentialSearch.FirstAcceptedKeyIsFound | src/auth_slots.rs:178-298 | The first accepted public key in the search order is the answer, whatever hidden keys came before; no later slot is reached, and exactly the public credentials up to it were offered, in order |
| CredentialSearch.FirstEligibleSlotDecides | src/auth_slots.rs:178-298 | When the selector excludes public keys and names a hidden one, the first slot that is matching, present and authorized decides: its hidden key is the only credential offered and no later slot is reached |
| CredentialSearch.FoundMeaning | src/auth_slots.rs:178-298 | Conversely, for every selector, an answer comes from the first slot that decides, by an accepted public key or, when public keys are excluded, by its hidden key, or it is the first hidden key after no slot decided |
| CredentialSearch.FirstEndDecides | src/auth_slots.rs:187-297 | The first slot that ends the search decides it; exactly the eligible slots up to it are reached, after exactly the public credentials of the earlier ones were offered |
| CredentialSearch.HiddenComesLast | src/auth_slots.rs:261-297 | Without one, every eligible slot is reached and every public credential offered, in order, and only then the first hidden key |
| CredentialSearch.VisitMeaning | src/auth_slots.rs:187-294 | With public keys allowed, a slot ends the search only by an accepted public key or an error, and leaves a hidden key only when it has no public key |
| CredentialSearch.PassedOffersAll | src/auth_slots.rs:236-260 | A slot that does not end the search has had all its public credentials offered, in order |
| CredentialSearch.SearchIsProper | src/auth_slots.rs:187-294 | Only eligible slots are reached and only proper credentials of reached slots are offered |
| CredentialSearch.EligibleAreReached | src/auth_slots.rs:187-206 | A way through the slots reaches exactly the eligible ones, in order |
| CredentialSearch.SourceDecides | src/auth_slots.rs:207-240 | A busy or broken slot, or one whose public keys are asked for and cannot be listed, ends the search with its error when it is reached; an absent or unauthorized one is passed over |
| CredentialSearch.ReadExactly | src/auth_slots.rs:241-256 | A public key is offered exactly when it is a 67-byte octet string with an uncompressed P-256 point and has a readable name and identifier; which error another gives |
| CredentialSearch.HiddenExactly | src/auth_slots.rs:261-293 | Which hidden key or symmetric pair a selector names, for every class and name |
| CredentialSearch.HiddenOnlyVisit | src/auth_slots.rs:261-293 | When the selector excludes public keys, a slot is left at once, ends the search by its hidden key, or ends it by an error |

## Left out

- DeviceBinding.RefreshMeansIdentified: takes a refresh, and finding and binding a reader, as one step each; `SplitRefresh` takes them in separate steps.
- DeviceBinding.MismatchLasts: takes a refresh, and finding and binding a reader, as one step each.
- CertificateBundle.DecodeBundle: lists and inputs shorter than 2^64 bytes, which every Rust slice is.
- DataObject.DecodeDataObject: byte strings shorter than 2^64 bytes and UTF-8 text, which the Rust types guarantee.
- PublicKeyMaterial.RoundTrip: byte strings shorter than 2^64 bytes and UTF-8 text, which the Rust types guarantee.
- Replacements of the connection in the middle of opening a channel: taken as happening before its first APDU.
- SCP03 and SCP11 cryptography, X.509 and DER parsing, signature and RSA validity: parameters that may answer anything.
- Attribute records of stored keys and materializing objects from them: long field-by-field tables.
- The encoding of a command APDU to bytes: only whether a command can be encoded is modelled.
- PC/SC, USB, HID and HTTP I/O, timeouts, TLS, mutex poisoning, tracing and zeroization: foreign or without state to reason about.
- The searches for card and native HSM credentials: the same loop with fewer cases.
- The identity cache of a device context and the URI parser and resolver of client credentials: would add only easy members.
- Discovery error texts, descriptions and protocol queries of applets: they only synchronize the connection, which is modelled as a query.
- Configuration, error tables and mechanism tables: flat option precedence and constants.
