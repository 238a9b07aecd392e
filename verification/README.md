# Models of a VPN client SDK

A Dafny model of the parts of the SDK whose correctness spans many steps, with proofs about
every input, every interleaving or every way of cutting a stream. `dafny verify dfyconfig.toml`
checks it.

| files | what they model |
|---|---|
| `Numbers`, `Octets`, `Pss`, `BlindToken` | blind-RSA session tokens: sections 4.2 to 4.4 of RFC 9474 over sections 9.1.1 and 9.1.2 of RFC 8017 |
| `HostSession`, `HostRuns`, `HostAnswers` | the native host's session: the generation counter that decides which tunnel may live, and what each request is told |
| `BrowserVpn`, `VpnRuns` | the browser controller: a fail-closed machine over port, tunnel, credentials and proxy setting |
| `TokenStock`, `TokenFlow`, `SessionLeases` | the token stock and its saved bundle, where tokens go, leases, and the token walk |
| `Postcard`, `Frames`, `FrameReader`, `StreamFraming` | the frame codecs and the stream readers |
| `Sealing`, `PqSession` | the per-packet key schedule and the two ends of a post-quantum session |
| `ApiClient`, `ClockRuns` | signed requests: hosts, nonces and the server clock |
| `DirectoryNodes`, `Directory`, `DirectoryForms`, `DirectoryExits`, `Selector`, `SplitTunnel` | the signed directory, weighted selection, and the PAC script beside its matcher |

Code that updates fields is a class whose methods say what the new state is, as a function of the
old one; what the source promises is then proved of that function over whole runs. An interleaving
is a list of events; where the source awaits, the model lets any list of them happen.

## What the proofs assume

- The hash, the AEAD, the key derivation, the KEM and Ed25519 are functions given from outside.
  Each lemma names what it needs of them; the RSA key is a 2048-bit modulus with `x^(e*d) mod n == x`
  below it.
- Public calls of the browser controller are serialized, each read or write of the proxy setting is
  atomic, and a port reports its disconnect at most once. The setting found at the start is not the
  listener of an earlier process.
- Request handlers of the native host interleave only at awaits; state reports come at any point.
- The API server refuses for nothing but the clock and dates its refusals; its clock and the device's
  differ by a constant. An answer is read at most a wait `w` after its request is signed, and a refused
  request is signed again within a second of reading the refusal, there being no await between. The code
  has no timeout, so `w` is a parameter; the results say for which waits they hold.

## Where the code falls short of its documentation

The model follows the code. In these places a promise holds only under a condition; the condition is
proved exact, and a run, a stream or an input outside it is given.

- A question put while a connect waits (`status`, `account` and the like) reopens a port whose host
  died and so resets the flag the connect's liveness check reads: the connect can succeed on a dead
  listener (`VpnRuns.QuestionHidesDeath`). Questions alone do no harm: an answered connect leaves the
  controller sound exactly when no host died after the answer, or the port was dead at one of the two
  checks (`VpnRuns.ConnectIsSound`), and credentials are live at every moment exactly when the port was
  its own or dead at the first (`VpnRuns.RoutedIsLive`).
- Where the browser offers no way to read the proxy setting, a failed connect clears a lockdown left
  by a dead host (`VpnRuns.BlindConnectClears`; exactly: `VpnRuns.HeldIffReadable`).
- `api/client.ts` says only a connect failure advances to the next host. Every error that is not a
  `WarrenTransportError` does too, as `api/transport.ts` notes, so the same signature can be sent
  after an answer was lost (`ApiClient.OtherErrorsAreResent`; exactly: `ApiClient.ResentBlindly`).
- The clock converges only over short round trips. With the server at most 900 seconds ahead, every signed
  call of every run is accepted exactly when no wait is longer than 29.5 seconds
  (`ClockRuns.AcceptedExactlyWhenPrompt`); above that a device 100.5 seconds behind is refused twice and the
  call throws (`ClockRuns.TwiceRefused`).
- A signed call that is accepted teaches nothing about the clock, so the call that takes two sends need
  not be the first. A device 45 seconds behind has a prompt call accepted and a later slow one refused; one
  75 seconds ahead has a slow call accepted and a later prompt one refused (`ClockRuns.LateCallsHappen`).
  Later calls are all one send exactly when the device is at most 60 seconds less the wait behind and 60
  ahead, at least 61 behind, or at least 61 and the wait ahead (`ClockRuns.LaterInOneExactlyWhenDecided`).
  Likewise a server just over 900 seconds ahead can be believed when its refusal is slow to arrive; it never
  is from 901 seconds and the wait on (`ClockRuns.GivenUpExactly`).
- `WarrenEdgeConnection.open` makes the sealing session once the transport is ready, and a session that
  throws there leaves the transport open: `openForAttempt` is outside the `try` that would close it
  (`SessionLeases.ShortIdStrandsAConnection`). A walk leaves nothing of its own open exactly when the exit id
  has 16 bytes and the key is usable, or no attempt gets a connection (`SessionLeases.LeavesNothingExactly`).
- Bytes after a frame are an error or go unnoticed, depending on where the chunk ends
  (`FrameReader.TrailingDependsOnTheCut`, `FrameReader.CutEitherWay`).
- A rule such as `*example.com` means `example.com` and its subdomains to the PAC script and a literal
  star to the matcher; and the two know different spellings of the IPv6 loopback
  (`SplitTunnel.TheyDiffer`; exactly: `SplitTunnel.RuleAgreesExactlyWhenPlain`, `SplitTunnel.ScriptDecidesLikeMatcher`).
- Messages in front of an oversize one can be lost with it (`StreamFraming.OneChunkLosesTheMessage`). All of
  them are returned exactly when some chunk ends after the last and before the oversize length is complete
  (`StreamFraming.ReturnedExactlyWhenCut`).

## Model

| member | source | states |
|---|---|---|
| `Numbers.ModPow` | packages/core/src/edge/token.ts:58-70 | for every modulus above 1, square-and-multiply gives the mathematical power reduced by the modulus |
| `Numbers.ModInverse` | packages/core/src/edge/token.ts:72-84 | extended Euclid ends, succeeds exactly when the argument is coprime to the modulus, and then gives the one inverse below the modulus |
| `Octets.OctetsToInteger` | packages/core/src/edge/token.ts:37-43 | the loop reads the big-endian integer a byte string spells |
| `Octets.IntegerToOctets` | packages/core/src/edge/token.ts:45-56 | succeeds exactly when the integer fits, and reading its result gives the integer back |
| `Octets.SpellingOfValue` | packages/core/src/edge/token.ts:37-56 | reading a byte string and writing it back gives the same bytes |
| `Pss.Mgf1` | packages/core/src/edge/token.ts:88-102 | the counter loop fills exactly the mask of section B.2.1 of RFC 8017, octet by octet |
| `Pss.UnmaskMasked` | packages/core/src/edge/token.ts:108-178 | XOR masking with cleared top bits undoes itself on a block whose top bits are clear |
| `Pss.EmsaPssEncode` | packages/core/src/edge/token.ts:108-138 | fails exactly when the salt does not fit; otherwise it gives the encoding of section 9.1.1 of RFC 8017 |
| `Pss.EmsaPssVerify` | packages/core/src/edge/token.ts:141-178 | accepts exactly the encodings of the message under 48-octet salts, and nothing else |
| `Pss.ChecksMeanEncoding` | packages/core/src/edge/token.ts:141-178 | the trailer, top-bit, padding, marker and hash checks together hold of the encodings and of nothing else |
| `Pss.EncodingBound` | packages/core/src/edge/token.ts:108-138 | an encoded message read as an integer is below two to its number of bits, hence below every modulus of one more bit |
| `Pss.EncodingLayout` | packages/core/src/edge/token.ts:108-138 | an encoding ends in 0xbc, behind the hash of eight zero octets, the message hash and the salt; what is in front unmasks to zeros, a one and the salt |
| `BlindToken.BlindToken` | packages/core/src/edge/token.ts:356-375 | succeeds exactly when the blind is coprime to the modulus and the sizes fit; the request spells m * r^e mod n and the state keeps the inverse of r |
| `BlindToken.FinalizeToken` | packages/core/src/edge/token.ts:385-403 | returns a token exactly when the unblinded answer is an RSASSA-PSS signature on the token input |
| `BlindToken.BlindingCancels` | packages/core/src/edge/token.ts:356-403 | unblinding the issuer's signature on the blinded message gives m^d mod n |
| `BlindToken.SignatureRecovers` | packages/core/src/edge/token.ts:385-403 | raising the signature of a message below the modulus to e gives the message back exactly |
| `BlindToken.HonestSignatureSigns` | packages/core/src/edge/token.ts:385-403 | the honest signature on an encoded token input passes the check of finalizing |
| `BlindToken.Mint` | packages/core/src/edge/token.ts:356-403 | for every 2048-bit key, input, 48-octet salt and coprime blind: blind, issue and finalize never throw, and the authenticator is m^d mod n |
| `BlindToken.Serialize` | packages/core/src/edge/token.ts:417-431 | 354 bytes: the token type 2 in the first two, the nonce from 2, the challenge digest from 34, the key id from 66 and the authenticator from 98 |
| `BlindToken.SerialOfSerialized` | packages/core/src/edge/token.ts:440-444 | a serialized token has a serial, the hash of its input; the authenticator has no part in it |
| `HostSession.Session.BeginConnect` | packages/extension/native-host/src/session.rs:311-325 | a connect is refused once closed or beside another, and otherwise takes the next generation |
| `HostSession.Session.SettleConnect` | packages/extension/native-host/src/session.rs:366-416 | a landed connect stores its tunnel and is answered with its listeners only under its own generation; every other tunnel comes back to be shut down, with an error |
| `HostSession.Session.TearDown` | packages/extension/native-host/src/session.rs:434-446 | the generation moves on, everything reported is cleared and the tunnel comes out |
| `HostSession.Session.Close` | packages/extension/native-host/src/session.rs:287-290 | closed for good before the teardown |
| `HostSession.Session.Report` | packages/extension/native-host/src/session.rs:418-432 | a state report of another generation changes nothing and queues nothing |
| `HostSession.Session.Hello` | packages/extension/native-host/src/session.rs:292-309 | another protocol or channel is refused and leaves the session as it was |
| `HostRuns.StepKeeps` | packages/extension/native-host/src/session.rs:241-446 | every step any interleaving can take keeps the whole invariant |
| `HostRuns.ExactlyOneOwner` | packages/extension/native-host/src/session.rs:311-446 | in every interleaving, each tunnel ever built is in the hands of exactly one of its connect, the slot or a shutdown |
| `HostRuns.StoredIsCurrent` | packages/extension/native-host/src/session.rs:311-416 | at most one tunnel is stored, it is of the current generation, and never two connects are in flight |
| `HostRuns.NothingStoredAfterClose` | packages/extension/native-host/src/session.rs:287-416 | after close, no continuation of any run ever stores a tunnel |
| `HostRuns.IdleReportsDisconnected` | packages/extension/native-host/src/session.rs:366-446 | with no tunnel and no current connect the reported state is disconnected, with no endpoints and no exit |
| `HostRuns.NoStaleEvents` | packages/extension/native-host/src/session.rs:418-446 | a state event appended to the outbox is never of a generation bumped before |
| `HostRuns.AnsweredExactlyOnce` | packages/extension/native-host/src/session.rs:241-282 | a finished request has exactly one answer, with its own id; an unfinished one has none |
| `HostRuns.AtMostThreeResumptions` | packages/extension/native-host/src/session.rs:241-416 | in every run a handler is resumed at most three times, each one bringing it closer to its answer, whatever else steps |
| `HostRuns.CanAlwaysFinish` | packages/extension/native-host/src/session.rs:241-416 | from wherever it waits a handler has an enabled event that resumes it, and three resumptions at most finish it |
| `HostAnswers.StepSaysWhatIsDue` | packages/extension/native-host/src/session.rs:241-446 | every step of every interleaving puts exactly the due message in the outbox: which answer or error code each request gets, at once or after a shutdown, and which reports become events |
| `HostAnswers.ConnectToldExactlyWhenUp` | packages/extension/native-host/src/session.rs:366-416 | after every run, a connect is told it is up exactly when its dialing ends with both credentials under the current generation; the slot then holds its tunnel, addresses and exit |
| `HostAnswers.StatusTellsTheConnect` | packages/extension/native-host/src/session.rs:241-282 | after every run, a status of a stored tunnel names the addresses and exit some connect was answered with |
| `BrowserVpn.Controller.Dial` | packages/extension/src/client.ts:328-420 | connect, with host death and questions at every await: the new state and the failure path |
| `BrowserVpn.Controller.Undo` | packages/extension/src/client.ts:517-530 | the failure path puts back what the extension held and clears what it did not |
| `BrowserVpn.Controller.Redial` | packages/extension/src/client.ts:428-453 | reconnect blocks the released listener before it lets the tunnel go and dials again |
| `BrowserVpn.Controller.Resplit` | packages/extension/src/client.ts:470-481 | applying a split rewrites the setting for the live tunnel only |
| `BrowserVpn.Controller.Release` | packages/extension/src/client.ts:606-629 | disconnect tells the host, clears the setting and lets the tunnel go, with host death and questions at every await |
| `BrowserVpn.Controller.OnDisconnect` | packages/extension/src/client.ts:693-734 | the death of a live tunnel's host blocks the browser and drops the credentials |
| `VpnRuns.DisconnectClears` | packages/extension/src/client.ts:606-629 | from every state and in every interleaving a disconnect ends with the setting cleared and no tunnel, credentials, listeners or port |
| `VpnRuns.ConnectEnds` | packages/extension/src/client.ts:328-420 | over a readable setting: a refused connect changes nothing, a failed one leaves the setting it found and holds nothing, a successful one holds the listeners of its own host's answer and points the browser at them |
| `VpnRuns.CredentialsOfTheAnswer` | packages/extension/src/client.ts:378-405 | with no death after the answer, the credentials held are the answer's |
| `VpnRuns.CredentialsGoToTheListeners` | packages/extension/src/client.ts:298-304 | forListener yields the held credentials exactly to the two addresses of the held listeners |
| `VpnRuns.ResplitWrites` | packages/extension/src/client.ts:470-481 | new split rules are written at once for the live tunnel's listener, and without one nothing is |
| `VpnRuns.RoutedEnds` | packages/extension/src/client.ts:378-420 | from the answer on: a failure puts a setting it could read back and clears one it could not; without credentials nothing is written at all |
| `VpnRuns.ReconnectDials` | packages/extension/src/client.ts:428-453 | a reconnect is a connect from a blocked browser and a controller that holds nothing; failing over a readable setting, the browser stays blocked |
| `VpnRuns.ReconnectOtherwise` | packages/extension/src/client.ts:428-453 | without a tunnel a reconnect is a connect; beside a connect it is refused and changes nothing |
| `VpnRuns.IdleKeepsNoHost` | packages/extension/src/client.ts:766-774 | over every run: with no tunnel, no connect and no question, no host process is attached |
| `VpnRuns.HeldUntilDisconnect` | packages/extension/src/client.ts:328-453 | from a successful connect until a disconnect, whatever dies, fails or interleaves, no write ever clears the proxy setting |
| `VpnRuns.ConnectedIsHeld` | packages/extension/src/client.ts:328-420 | a successful connect establishes what that guarantee starts from |
| `VpnRuns.HeldIffReadable` | packages/extension/src/client.ts:517-530 | the guarantee holds of all runs exactly when the browser lets the extension read its setting |
| `VpnRuns.BlindConnectClears` | packages/extension/src/client.ts:517-530 | a run in which an unreadable setting is cleared with no disconnect asked for |
| `VpnRuns.ConnectIsSound` | packages/extension/src/client.ts:328-420 | a connect leaves listener, credentials and attached host of one tunnel exactly when it is not answered or no death is hidden from its checks |
| `VpnRuns.ListenerOnlyWhileAlive` | packages/extension/src/client.ts:298-304 | after every run whose connects have no death hidden from them, questions or not, a listener is named, and its credentials are handed out, only while its host is attached |
| `VpnRuns.CredentialsLiveThroughout` | packages/extension/src/client.ts:328-453 | in every run whose connects take their credentials live, at every moment of every await of every call the credentials held are those of the attached host |
| `VpnRuns.AskingNothingIsEnough` | packages/extension/src/client.ts:766-774 | a connect during whose last three awaits no question is put has no death hidden from it and takes its credentials live |
| `VpnRuns.RoutedIsLive` | packages/extension/src/client.ts:328-420 | from the answer on, credentials are live at every moment exactly when the port is the connect's own, or dead, at the first check |
| `VpnRuns.HandedOutLive` | packages/extension/src/client.ts:298-304 | while credentials are live, forListener yields only an attached host's |
| `VpnRuns.QuestionsCanHideADeadHost` | packages/extension/src/client.ts:456-460 | for every interleaving of questions: a connect succeeds exactly when its port looks alive at both checks, and its host is then attached exactly when no host died after the answer |
| `VpnRuns.QuestionHidesDeath` | packages/extension/src/client.ts:678-691 | a status question after the host's death reopens the port, and the connect succeeds on a dead listener |
| `TokenStock.TokenManager.LoadPersisted` | packages/core/src/edge/token-manager.ts:491-524 | a restart reads the bundle epoch by epoch, skipping malformed entries, negative epochs and a foreign version |
| `TokenStock.TokenManager.TakeCurrentStack` | packages/core/src/edge/token-manager.ts:435-444 | one token of the current epoch comes out and the rest is saved |
| `TokenStock.TokenManager.OnDirectory` | packages/core/src/edge/token-manager.ts:253-265 | spent epochs go, the epoch length is learned and the unsettled published epochs are listed |
| `TokenStock.TokenManager.OnMinted` | packages/core/src/edge/token-manager.ts:267-304 | one epoch's mint joins the stock, is skipped, or ends the pass |
| `TokenStock.TokenManager.OnRevoked` | packages/core/src/edge/token-manager.ts:373-377 | revocation empties memory and the saved bundle |
| `TokenStock.StepKeeps` | packages/core/src/edge/token-manager.ts:243-377 | every step of interleaved refreshes and takes keeps the invariant between memory and the saved bundle |
| `TokenStock.ReloadFindsTheStock` | packages/core/src/edge/token-manager.ts:478-524 | with no refresh in flight, a restart reads back exactly the stock in memory, but for epochs with an empty list |
| `TokenStock.RevokedForGood` | packages/core/src/edge/token-manager.ts:243-377 | once revoked, in every continuation the stock and the saved bundle are empty |
| `TokenStock.TakeConserves` | packages/core/src/edge/token-manager.ts:435-444 | a taken token leaves its epoch, in memory and saved, and nothing else does |
| `TokenFlow.RunConserves` | packages/core/src/edge/token-manager.ts:243-304 | over every run that does not end revoked, per epoch: what was held and what was minted is what is stocked, taken and pruned, as multisets |
| `TokenFlow.TakeGivesTheEpochs` | packages/core/src/edge/token-manager.ts:435-444 | a take gives a token exactly when the epoch of its time has one, and one of that epoch's |
| `TokenFlow.AskedForTheUnsettled` | packages/core/src/edge/token-manager.ts:253-265 | a directory is asked for exactly its published epochs that have not passed and are not settled |
| `TokenFlow.SettledByAnswers` | packages/core/src/edge/token-manager.ts:267-304 | an epoch is settled by its tokens or by having been issued before, and by nothing else; which outcomes end the pass or revoke |
| `TokenFlow.PassSettles` | packages/core/src/edge/token-manager.ts:267-304 | a pass answered for every epoch settles each epoch it asked for, ends, and leaves the bundle saved |
| `TokenFlow.StartsUnlessRevoked` | packages/core/src/edge/token-manager.ts:243-252 | a revoked manager starts no refresh; any other registers first |
| `TokenFlow.RegistrationDecides` | packages/core/src/edge/token-manager.ts:313-326 | a revocation empties the stock and ends the refresh, a full account ends it, and any other registration, failed ones included, goes on |
| `TokenFlow.WantedInOrder` | packages/core/src/edge/token-manager.ts:262-265 | epochs are asked for in the order they are published |
| `TokenFlow.WantedCounts` | packages/core/src/edge/token-manager.ts:262-265 | and as often |
| `TokenFlow.RestartStocks` | packages/core/src/edge/token-manager.ts:491-524 | a restart stocks exactly the 354-byte entries of the epochs not negative of a version 1 bundle, each as often as saved, settled and revoked being forgotten |
| `SessionLeases.HeldByExactlyOne` | packages/core/src/edge/token-manager.ts:411-425 | after every history of claims and releases a serial is held exactly when one live lease has it, and never two |
| `SessionLeases.StaleReleaseFreesNothing` | packages/core/src/edge/token-manager.ts:411-425 | releasing a lease again, however much later, frees nothing, not even the same serial claimed since |
| `SessionLeases.StackIsEveryFreeToken` | packages/core/src/edge/token-manager.ts:391-403 | a session stack is every free token of the epoch, as often as stored, whatever the rotation |
| `SessionLeases.FreeCounts` | packages/core/src/edge/token-manager.ts:391-403 | a token is free as often as it is stored if it has a serial that no live session holds, and else not at all |
| `SessionLeases.StackFollowsTheRotation` | packages/core/src/edge/token-manager.ts:391-403 | with all tokens free the stack is the stored list from the rotation on, wrapped around |
| `SessionLeases.LeaseBook.ClaimToken` | packages/core/src/edge/token-manager.ts:411-425 | a claim is refused for no token and for a held serial, and otherwise gives a new live lease |
| `SessionLeases.LeaseBook.Walk` | packages/core/src/edge/session-walk.ts:57-87 | the loop over the first eight places of the stack: what is claimed, presented, closed and released at each, and the result |
| `SessionLeases.EveryPlaceIsAccounted` | packages/core/src/edge/session-walk.ts:63-81 | a place is passed over exactly when its token cannot be claimed in the book found there; a presented one ends as its attempt does |
| `SessionLeases.WalkEnds` | packages/core/src/edge/session-walk.ts:57-87 | at most eight places; the first answer or error ends the walk and every attempt before it was rejected; in the end an admitted token's connection is open and its lease live, no other lease of the walk is live, and no other connection of it is open but one whose session was refused |
| `SessionLeases.GivesUpAfterTheLast` | packages/core/src/edge/session-walk.ts:57-87 | a walk that gives up visited its whole stack when that has fewer than eight tokens, and else eight places |
| `SessionLeases.FirstAnsweredIsAdmitted` | packages/core/src/edge/session-walk.ts:57-87 | the first of the first eight places that can be claimed where it is found and is answered is admitted, if every token presented before it was rejected |
| `SessionLeases.LeavesNothingExactly` | packages/extension/src/edge.ts:186-199 | a walk leaves nothing of its own open, the admitted connection aside, exactly when a session can be made for its exit or no attempt gets a connection |
| `SessionLeases.ShortIdStrandsAConnection` | packages/extension/src/edge.ts:186-199 | a 15-byte exit id: the walk throws and its connection stays open |
| `SessionLeases.LeaseBook.Present` | packages/extension/src/edge.ts:362-386 | one attempt: a connection opened, left open when the session is refused on it, closed on a rejection or a later error, its lease released, other sessions acting meanwhile |
| `SessionLeases.AttemptKeeps` | packages/extension/src/edge.ts:278-281 | an attempt leaves its lease live exactly when it was answered, its connection open exactly when it was answered or its session refused, and every other connection and lease to its owner |
| `Postcard.EncodeLeb128` | packages/core/src/edge/varint.ts:14-32 | a negative integer is refused; any other is spelled in groups of seven bits, low first |
| `Postcard.LebOctet` | packages/core/src/edge/varint.ts:14-32 | octet i carries the i-th seven bits of the integer, with the high bit on all but the last |
| `Postcard.DecodeLeb128` | packages/core/src/edge/varint.ts:47-63 | the loop reads the integer at the front, and tells a truncation from a tenth group that goes on |
| `Postcard.NumberRoundTrip` | packages/core/src/edge/varint.ts:14-63 | decoding inverts encoding, whatever bytes follow, for exactly the integers of ten groups |
| `Postcard.AllRoundTrip` | packages/core/src/edge/frame.ts:56-144 | a list of fields is read back, whatever follows, exactly when every integer in it is short |
| `Postcard.AllExtend` | packages/core/src/edge/frame.ts:100-144 | more bytes change the reading of a list of fields only when it was truncated |
| `Frames.EncodeFrame` | packages/core/src/edge/frame.ts:56-91 | refuses exactly the fields of the wrong size and the negative integers; otherwise writes the version, exit id, epoch, sequence number, encapsulated key, tag and length-prefixed ciphertext in that order, through a cursor |
| `Frames.DecodeFrame` | packages/core/src/edge/frame.ts:100-144 | the cursor over the buffer gives the frame, or the error of the first field that fails, in order |
| `Frames.RoundTrip` | packages/core/src/edge/frame.ts:56-144 | an encodable frame comes back exactly when its version is 1 and its integers have ten groups |
| `Frames.WireFramesSurvive` | packages/core/src/edge/frame.ts:56-144 | every frame with a u32 epoch and a u64 sequence number comes back |
| `Frames.PrefixIsTruncated` | packages/core/src/edge/frame.ts:100-144 | every strict prefix of bytes that decode is truncated |
| `Frames.FatalStaysFatal` | packages/core/src/edge/frame.ts:100-144 | any other error stays the same error whatever bytes follow |
| `Frames.EncodeFrameV2` | packages/core/src/edge/frame-v2.ts:69-111 | the same for /v2, with its length-prefixed KEM ciphertext in its place |
| `Frames.DecodeFrameV2` | packages/core/src/edge/frame-v2.ts:122-176 | the same for /v2, with the size limit first |
| `Frames.RoundTripV2` | packages/core/src/edge/frame-v2.ts:69-176 | an encodable /v2 frame comes back exactly when its version is 2, its integers are short and it is not oversize |
| `Frames.NeverCrossDecode` | packages/core/src/edge/frame-v2.ts:122-176 | no bytes are a frame of both versions; each decoder calls the other's a wrong version |
| `FrameReader.ReadOneFrame` | packages/extension/src/edge.ts:137-167 | the read loop over chunks, empty ones and the end of the stream included |
| `FrameReader.EveryChunking` | packages/extension/src/edge.ts:137-167 | for every wire frame and every way of cutting its bytes, on a stream that stays open, the frame is returned with no read past its last byte |
| `FrameReader.StructuralErrorIsFatal` | packages/extension/src/edge.ts:137-167 | a wrong version or over-long integer ends the reading with that error, however cut |
| `FrameReader.IncompleteWaits` | packages/extension/src/edge.ts:137-167 | while bytes are missing the reader waits, and the end of the stream is then a truncation |
| `FrameReader.EndDecides` | packages/extension/src/edge.ts:137-167 | the chunk that ends the stream is decoded together with everything before it |
| `FrameReader.FrameEndsTheStream` | packages/extension/src/edge.ts:137-167 | a wire frame whose last bytes come with the end of the stream is returned, however cut |
| `FrameReader.TrailingDependsOnTheCut` | packages/extension/src/edge.ts:137-167 | with bytes after the frame, the frame is returned exactly when a chunk ends where it does |
| `FrameReader.CutEitherWay` | packages/extension/src/edge.ts:137-167 | one stream with bytes after its frame: the frame when cut there, a trailing-bytes error when not cut |
| `StreamFraming.Encode` | packages/extension/src/host/framing.ts:11-20 | a message beyond what the stream sends is refused; any other is its length and its bytes |
| `StreamFraming.Decoder.Push` | packages/extension/src/host/framing.ts:23-40 | what is returned and what is kept are the complete messages and the rest of everything received |
| `StreamFraming.DrainSplits` | packages/node/src/warrend/protocol.ts:56-74 | draining before or after more bytes arrive gives the same messages and the same rest |
| `StreamFraming.AnySplit` | packages/node/src/warrend/protocol.ts:56-74 | pushing a stream in any pieces gives what pushing it whole gives |
| `StreamFraming.MessagesSurvive` | packages/node/src/warrend/protocol.ts:44-74 | every list of sendable messages and incomplete tail, in any split, comes out in order, the tail retained |
| `StreamFraming.OversizeThrows` | packages/extension/src/host/framing.ts:26-40 | a length beyond the cap throws in every split, and only a front of the messages before it was returned |
| `StreamFraming.ReturnedExactlyWhenCut` | packages/extension/src/host/framing.ts:26-40 | all messages before it are returned exactly when there are none or some chunk ends after the last and before the length is complete |
| `StreamFraming.OneChunkLosesTheMessage` | packages/node/src/warrend/protocol.ts:60-73 | one message and an oversize length in one chunk return nothing |
| `StreamFraming.DrainKeepsEveryByte` | packages/node/src/warrend/protocol.ts:60-73 | what came out, framed again, and the rest kept are exactly the bytes that went in |
| `StreamFraming.BothAreSound` | packages/extension/src/host/framing.ts:8-14 | both formats satisfy what these lemmas ask: each decoder takes whatever its encoder sends, and the lengths fit four octets |
| `StreamFraming.PrefixOctets` | packages/extension/src/host/framing.ts:8-20 | the four octets of a length: low first on the native stream, high first on the daemon's |
| `StreamFraming.TheTwoStreams` | packages/node/src/warrend/protocol.ts:44-54 | the two streams and their limits in numbers |
| `Sealing.ComposeExportInfo` | packages/core/src/edge/seal.ts:49-55 | the buffer holds the label, the epoch in four octets and the sequence number in eight, each reduced to its word |
| `Sealing.ComposeExportInfoReverse` | packages/core/src/edge/seal.ts:62-68 | the same 12 octets behind the label, and the direction octet 2 |
| `Sealing.ComposeAad` | packages/core/src/edge/seal.ts:74-85 | label, 16 octets of exit id, the epoch in four octets and the sequence number in eight, in that order |
| `Sealing.LabelOctets` | packages/core/src/edge/pq-seal.ts:36-38 | the two labels, octet by octet |
| `Sealing.InfosCollide` | packages/core/src/edge/pq-seal.ts:49-80 | two slots share an export info exactly when the direction is the same and epochs and sequence numbers agree modulo 2^32 and 2^64 |
| `Sealing.SlotsHaveTheirOwnInfo` | packages/core/src/edge/pq-seal.ts:49-80 | below 2^32 and 2^64 no two slots share an export info |
| `Sealing.AadsCollide` | packages/core/src/edge/pq-seal.ts:84-95 | associated data tells exits and slots apart |
| `Sealing.VersionsShareNoInfo` | packages/core/src/edge/pq-seal.ts:36-38 | /v1 and /v2 share no export info |
| `Sealing.OpensWhatWasSealed` | packages/core/src/edge/seal.ts:128-181 | what one end seals on a slot the other end opens, the tag detached and put back |
| `Sealing.TagIsFilledUp` | packages/core/src/edge/seal.ts:164-181 | a tag of more than 16 octets opens nothing, a shorter one counts as filled up with zeros |
| `Sealing.EdgeConnection.Seal` | packages/extension/src/edge.ts:208-252 | setup and data seal on the next sequence number of epoch 0 |
| `Sealing.EdgeConnection.OpenResponse` | packages/core/src/edge/seal.ts:164-181 | a frame for another exit is refused; any other is opened on the reverse slot of its numbers, a short tag padded with zeros |
| `Sealing.OpensItsExitsAnswers` | packages/core/src/edge/seal.ts:164-181 | what the exit seals for the way back on any slot, the connection opens |
| `Sealing.OpenedBackWasSealedBack` | packages/core/src/edge/seal.ts:164-181 | if the AEAD is unforged, what a connection opens names its exit and was sealed for the way back on that slot with its secret; its own packets sent back to it are not opened |
| `Sealing.NeverTwiceOnOneInfo` | packages/extension/src/edge.ts:283-287 | a connection never seals twice on one export info for its first 2^64 seals, and does with one more |
| `Sealing.DirectionsShareNoInfo` | packages/core/src/edge/seal.ts:57-68 | a forward and a reverse slot never share an export info |
| `PqSession.PqClientSession.Rekey` | packages/core/src/edge/pq-seal.ts:205-213 | the secret of the old epoch moves to the overlap slot and the epoch advances |
| `PqSession.PqClientSession.OpenResponse` | packages/core/src/edge/pq-seal.ts:270-286 | the exit, the version and the epoch are checked in that order before the secret is chosen |
| `PqSession.HoldsTwoEpochs` | packages/core/src/edge/pq-seal.ts:205-218 | after every history of rotations and prunings a client holds the secret of its epoch, of the one before exactly while the window is open, and no other |
| `PqSession.OpensExactlyTheWindow` | packages/core/src/edge/pq-seal.ts:270-375 | every honest reverse frame of those epochs opens to its payload; one of any other epoch is refused |
| `PqSession.SetupEstablishes` | packages/core/src/edge/pq-seal.ts:224-375 | an exit made from the setup frame opens the client's frames and is opened by it |
| `PqSession.OpenedWasSealedBack` | packages/core/src/edge/pq-seal.ts:270-375 | if the AEAD is unforged, an opened frame was sealed for the way back, on that slot, by a holder of that epoch's secret, for that exit |
| `PqSession.ExitOpensWhatWasSealedForward` | packages/core/src/edge/pq-seal.ts:322-375 | if the AEAD is unforged, what an exit opens was sealed forward, on the frame's own slot, by a holder of its secret, for that exit |
| `PqSession.FramesCarry` | packages/core/src/edge/pq-seal.ts:224-375 | a frame from the exit carries no KEM ciphertext and echoes the ephemeral key; a client's carries its own; both name their slot and exit, with the tag split off |
| `PqSession.RefusedExactly` | packages/core/src/edge/pq-seal.ts:270-286 | which error a client refuses a frame with, exactly: another exit before another version before an epoch with no secret |
| `PqSession.ExitRefusesExactly` | packages/core/src/edge/pq-seal.ts:322-330 | the same for an exit, which has no epochs to refuse |
| `ApiClient.StampIsClose` | packages/core/src/api/clock.ts:52-65 | a stamp is within 30 s of the measured clock exactly when that clock is at most 900 s ahead |
| `ApiClient.ServerClock.ObserveDate` | packages/core/src/api/clock.ts:80-84 | a parsed date sets the offset, anything else leaves it |
| `ApiClient.ServerClock.Stamp` | packages/core/src/api/clock.ts:97-99 | the device clock moved by the applicable part of the offset, unless that leaves the valid times |
| `ApiClient.Candidates` | packages/core/src/api/client.ts:545-554 | the primary host first, the alternatives in order, and the primary once more, the only send without SNI |
| `ApiClient.WarrenApiClient.SendToFirstHostThatAnswers` | packages/core/src/api/client.ts:486-516 | the sends up to the first host not advanced past, and the result that last send means |
| `ApiClient.WarrenApiClient.SendRequest` | packages/core/src/api/client.ts:453-475 | one signed call: what is sent, what is learned and what is answered or thrown |
| `ApiClient.NeverResentAfterAnAnswer` | packages/core/src/api/client.ts:453-516 | a call signs at most twice, with two nonces; sends of one signing carry equal headers, and each but the last was advanced past |
| `ApiClient.ResentMeansNotConnected` | packages/core/src/api/client.ts:486-516 | over a transport that raises only its own error type, a signing sent again had no connection before |
| `ApiClient.ResentBlindly` | packages/core/src/api/client.ts:486-516 | a signing goes out again after an error that says nothing about the connection exactly when such an error meets a host before the last |
| `ApiClient.OtherErrorsAreResent` | packages/core/src/api/client.ts:502-512 | a two-host account whose signed request goes out twice with one nonce, after an error of another type |
| `ApiClient.FirstHostDecides` | packages/core/src/api/client.ts:486-516 | a signing ends with the answer of the first host that answers, as a broken transport when a connection broke first, and as blocked exactly when every host was passed |
| `ApiClient.NothingSentUnsignable` | packages/core/src/api/client.ts:453-475 | without an identity or a valid clock nothing is sent |
| `ApiClient.UnsignedIsPlain` | packages/core/src/api/client.ts:453-475 | an unsigned call carries no signature, learns nothing and returns any answer as it came |
| `ApiClient.OtherAnswersComeBack` | packages/core/src/api/client.ts:453-475 | a signed call returns any answer that does not refuse its stamp after one signing; only the date of a 401 is learned |
| `ApiClient.RefusedIsSignedAgain` | packages/core/src/api/client.ts:453-484 | a refused call learns the date of its refusal and signs once more if its new stamp is then within 60 s; what each second answer makes of result and clock, and when it gives up |
| `ClockRuns.AcceptedExactlyWhenPrompt` | packages/core/src/api/client.ts:453-475 | with the server at most 900 s ahead or any distance behind, every signed call of every run is accepted exactly when no wait is longer than 29.5 s |
| `ClockRuns.EveryCallIsAccepted` | packages/core/src/api/client.ts:453-475 | within that bound every call of a run is accepted, at most one of them in two sends |
| `ClockRuns.TwiceRefused` | packages/core/src/api/client.ts:453-475 | for every longer wait, a call refused twice that ends in clock_skew after two sends |
| `ClockRuns.LaterInOneExactlyWhenDecided` | packages/core/src/api/client.ts:453-475 | for every wait w within the bound, every run has each call after its first in one send exactly when the device stamp is always in the window or never: skew from -60 to 60 - w, 61 and more, or -61 - w and less |
| `ClockRuns.SlowCallComesLate` | packages/core/src/api/client.ts:453-475 | for every skew strictly between 60 - w and 61, a run with a prompt call accepted in one send and a later slow one in two |
| `ClockRuns.PromptCallComesLate` | packages/core/src/api/client.ts:453-475 | for every skew strictly between -61 - w and -60, a run with a slow call accepted in one send and a later prompt one in two |
| `ClockRuns.LateCallsHappen` | packages/core/src/api/client.ts:453-475 | both happen: at 45 s behind and at 75 s ahead |
| `ClockRuns.FirstCall` | packages/core/src/api/client.ts:453-475 | every first call, whatever its waits: accepted at once, given up after one send, or signed again and then accepted or refused for good, by the windows alone |
| `ClockRuns.PromptFirstCall` | packages/core/src/api/client.ts:453-475 | within the bound on waits: accepted at once, or on the second send, or given up after one send exactly when the measured offset is beyond 900 s |
| `ClockRuns.AppliedCall` | packages/core/src/api/clock.ts:52-100 | within the bound on waits, once an offset is applied a call is one accepted send |
| `ClockRuns.TooFarAhead` | packages/core/src/api/client.ts:453-484 | for every wait w, with the server 901 + w s ahead or more: clock_skew after one send |
| `ClockRuns.GivenUpExactly` | packages/core/src/api/client.ts:453-484 | beyond 900 s and for every wait w, every first call is given up after one send exactly when the skew is 901 + w or more |
| `DirectoryNodes.ValidatedIsValid` | packages/core/src/discovery/multihop.ts:191-262 | validation hands out only lower-case hex of the right sizes and integers in range |
| `DirectoryNodes.NodeHoldsItsMembers` | packages/core/src/discovery/multihop.ts:191-262 | every field of a validated node is the member of its own name; a missing network number is 0 |
| `DirectoryNodes.RelayHoldsItsMembers` | packages/core/src/discovery/multihop.ts:191-262 | the same of a relay, hex in lower case |
| `DirectoryNodes.ExitHoldsItsMembers` | packages/core/src/discovery/multihop.ts:191-262 | the same of an exit |
| `DirectoryForms.RelayTakenExactly` | packages/core/src/discovery/multihop.ts:191-262 | a relay is taken exactly when it has every required field, no unknown one, and hex of either case of the right length |
| `DirectoryForms.ExitTakenExactly` | packages/core/src/discovery/multihop.ts:191-262 | the same for an exit |
| `DirectoryForms.NodeTakenExactly` | packages/core/src/discovery/multihop.ts:191-262 | the same for a node and both its parts |
| `DirectoryForms.RelayRises` | packages/core/src/discovery/multihop.ts:265-303 | a relay is printed in one order of fields, whatever optional ones it has |
| `DirectoryForms.ExitRises` | packages/core/src/discovery/multihop.ts:265-303 | the same for an exit |
| `DirectoryForms.NodeRises` | packages/core/src/discovery/multihop.ts:265-303 | the same for a node |
| `DirectoryForms.PreimageRises` | packages/core/src/discovery/multihop.ts:497-507 | the same for the document around them, with its eight fields |
| `DirectoryForms.DocTakenExactly` | packages/core/src/discovery/multihop.ts:441-485 | a document is taken, or refused as another version's, or refused as no directory, each exactly when; one node not taken refuses the document |
| `DirectoryForms.DocHoldsItsMembers` | packages/core/src/discovery/multihop.ts:441-485 | what was read is what stands under each name, the nodes in their order |
| `DirectoryNodes.CanonicalIsNormal` | packages/core/src/discovery/multihop.ts:191-303 | a canonical form validates to the normal node, whose canonical form it is: canonicalizing is idempotent |
| `DirectoryNodes.CanonicalDetermines` | packages/core/src/discovery/multihop.ts:265-303 | two nodes have one canonical form exactly when they differ at most in unset flags |
| `Directory.CheckDocument` | packages/core/src/discovery/multihop.ts:487-544 | the ordered checks with their errors, the loops over pinned server and root keys included; none fails exactly when pin, keys, envelope, validity and certificate hold |
| `Directory.VerifyMultihopDirectory` | packages/core/src/discovery/multihop.ts:441-577 | parsing, the checks in order, and the exits of the vouched nodes in order |
| `Directory.OutputFollowsPreimage` | packages/core/src/discovery/multihop.ts:497-577 | documents with one canonical preimage and one signature verify alike: the same error, or the same exits and counts |
| `Directory.CanonicalDocumentVerifiesAlike` | packages/core/src/discovery/multihop.ts:441-577 | a document printed in canonical form with its signature and read back is the normal document, with the same preimage and the same outcome |
| `Directory.EveryExitIsBacked` | packages/core/src/discovery/multihop.ts:370-426 | every surfaced exit is backed by operational signatures, an ML-KEM key and a set DNS flag by one that covers them; exits and dropped are all the nodes |
| `Directory.DroppedAreUnvouched` | packages/core/src/discovery/multihop.ts:547-577 | nothing is dropped exactly when every node is vouched for |
| `DirectoryExits.VouchedExactlyWhenHonest` | packages/core/src/discovery/multihop.ts:370-426 | a node is vouched for exactly when its relay and attestation signatures hold and its exit signature holds with a 1184-byte key, or over the DNS flag, or over neither with the flag unset |
| `DirectoryExits.VerifiedShowsTheHonest` | packages/core/src/discovery/multihop.ts:547-577 | the exits of a verified directory are those nodes, in document order, each with its own node's fields and its relay's addresses; the generation and dates are the document's and the rest are counted as dropped |
| `DirectoryExits.RefusedAtTheFirstBrokenLink` | packages/core/src/discovery/multihop.ts:487-544 | which error a document is refused with, exactly: that of the first link of pin, keys, envelope, seven days, operational key and certificate that does not hold |
| `Selector.WeightedPick` | packages/core/src/discovery/selector.ts:72-82 | the pick is the relay the scaled draw falls on; the trailing fallback is reached only by a draw of 1 or more |
| `Selector.EveryRollFallsOnOne` | packages/core/src/discovery/selector.ts:72-82 | every roll below the total falls on exactly one position |
| `Selector.PickedByWeight` | packages/core/src/discovery/selector.ts:72-82 | of the rolls below the total, exactly its weight fall on each position |
| `Selector.PickedInterval` | packages/core/src/discovery/selector.ts:72-82 | the draws that pick a position are exactly an interval of its share |
| `Selector.SelectExitWeighted` | packages/core/src/discovery/selector.ts:49-98 | fails exactly when no relay with weight matches; otherwise the result matches the query and is the one drawn |
| `Selector.QueriesNarrow` | packages/core/src/discovery/selector.ts:30-56 | a city query is a country query narrowed, a country query one for anywhere narrowed; a query for both address families is either; IPv6 egress only narrows |
| `SplitTunnel.FindProxyForUrl` | packages/extension/src/split.ts:116-135 | the emitted loop, with its break and continue, finds whether some rule matches |
| `SplitTunnel.RuleAgreesExactlyWhenPlain` | packages/extension/src/split.ts:59-71 | script and matcher agree on a rule for every host exactly when it is not a star directly before a name |
| `SplitTunnel.ScriptDecidesLikeMatcher` | packages/extension/src/split.ts:79-135 | in only mode with documented rules, script and matcher decide alike exactly when the host is not an IPv6 loopback spelling some rule matches |
| `SplitTunnel.TheyDiffer` | packages/extension/src/split.ts:73-135 | a starred rule and both IPv6 loopback spellings on which script and matcher decide differently |
| `SplitTunnel.RulesMean` | packages/extension/src/split.ts:54-71 | a star is every host, a name is itself and every name below it, a name behind a dot, starred or not, is every name below it and not itself |
| `SplitTunnel.ModesMean` | packages/extension/src/split.ts:73-92 | this machine is never tunnelled; otherwise all tunnels everything, only what some rule matches, and bypass exactly what only would leave |

## Left out

- Hash, HKDF, AEAD, Ed25519, X25519, ML-KEM, base64 and JSON text: functions given from outside, opaque
  bytes or parsed values. A message whose JSON does not parse is not modelled.
- The byte strings directory signatures are over: a statement stands for its context string and parts.
- Ed25519 keys and signatures as bytes: the directory compares them as strings.
- Rounding: frame epochs at or above 2^53 and the floating point of the random draw are exact here.
- The generation counter of the native host as a 64-bit word, and the end of its process.
- The moment between a handler's release of the lock and its answer in `session.rs`: the model settles and answers in
  one step, so a state event of the stored generation never stands between the two. No result here turns on it.
- Drawing a blind until it is coprime (`randomCoprime`), the SPKI reader and the token challenge: easy beside
  what uses them.
- The Firefox path, leak hardening, overlapping public calls and a host that cannot be spawned, in the browser
  controller.
- Device registration at start and device names in the token manager: they do not touch the stock.
- SplitTunnel.FindProxyForUrl: only-mode scripts alone, since no other mode emits one.
- BrowserVpn.Controller.Dial: the message texts of its errors and its timeouts are not modelled; a host that
  does not answer in time is one of the ways its script can go.
- PqSession.PqClientSession.OpenResponse: asks for a non-negative epoch and sequence number, which is all a decoded
  frame can have.
- `packages/extension/src/host/session.ts` and `packages/node/native/warren-napi/src/lifecycle.rs`: smaller
  instances of the protocol proved for `session.rs`.
- `packages/core/src/edge/webtransport.ts`, `packages/core/src/identity/ss58.ts`, `packages/core/src/phase.ts` and
  `packages/core/src/discovery/stores.ts`: they would add easy members only.
- The generator behind attempt-seeded selection (`mulberry32`): its draws are reals in [0, 1) here.
- Engine, installer, command line, keyring, HTTP transports and pages: I/O or thin wrappers.
