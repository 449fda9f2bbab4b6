# Obliance agent: verified models of its stateful core

Dafny models of the parts of the Obliance agent, of its C console helper and of the BookStack importer that keep
state, speak a protocol or have to survive failure, with proofs of what they are for. One module per component:

| module | component | what is proved |
|---|---|---|
| `SshGrantLine`, `SshJump` | one-time `authorized_keys` grants | printer and parser are inverse (with the exact condition); what every run of grants, revokes, sweeps and restarts keeps in every key file |
| `PrivacyGate`, `PrivacyRuns` | privacy password, unlock tokens, the three command gates | over every interleaving of the single reads and writes: an admitted blocked command ends a chain of uses that begins with a password check; purging is invisible; exactly when the record changes in privacy mode, a session lacks a password, and a token outlives a removal |
| `Dispatcher`, `CommandRuns` | ack queue and command life cycle, with the gate in front of it | conservation of acks over all interleavings and over reuse of the array; one running and one terminal ack per command; no blocked command in its handler without its gate's consent |
| `Streams`, `WebSocket`, `VmConsole` | RFC 6455 frames and the helper's pipe | stream round trips, cut streams, concurrent senders, and the composition of both protocols |
| `Airgap` | the iptables chain and the mode switch | the verdict of every packet once applied, rollback, and exactly when flag and firewall agree |
| `Tunnel` | relay goroutines, close commands, registry | safety of every interleaving and termination of every fair schedule |
| `Importer` | the idempotent import script | creation at most once over any sequence of aborted runs |
| `Subnet`, `Versions`, `CsvLine` | address enumeration, version order, CSV | exact sets of addresses, a total preorder, parsing as the inverse of quoting |
| `Watchdog`, `PushLoop` | the restart ledger, back-off and polling | conservation of restarts, no start while inhibited, spacing of refused pushes |

`Text` and `Filters` hold the string and list operations these share. `dafny verify dfyconfig.toml` checks everything.

Code that updates objects, arrays or files in place is modelled by classes, arrays and loops, each method proved equal
to a step function; the state machines over those step functions carry the theorems about whole runs. Clocks, random
values, the network, the file system's errors, the key derivation function and command handlers are parameters.

Where the code and its comments disagree, the model follows the code:

- `agent/command_channel.go:213-215` says that the hub gate matches the other two; it ignores `bypassPrivacy`, which
  the other two honour.
- `agent/push.go:218-220` says that watchdog restarts are restored on every non-2xx answer; they are restored only when
  there was no answer at all.
- `agent/watchdog.go:31-32` calls the restart list chronological; after a failed push it may not be
  (`Watchdog.RestoreKeepsOrder` says exactly when it is).
- `agent/push.go:275` says that `nextPollIn` is preferred to the configured interval; when it equals the current
  interval the configured one wins (`PushLoop.IntervalSettles`).
- `PurgeExpiredUnlocks` is documented as periodic but called nowhere; `PrivacyRuns.PurgesAreInvisible` shows that this
  makes no difference to any answer.

Some properties of the design do not hold of the code on every input. For each the exact condition is proved, and an
input that fails is given: a grant line parses back unless its host contains the marker (`SshGrantLine.PrintThenParse`),
which no host that can be dialled does (`SshGrantLine.DialledGrantReadsBack`); a line in a key file survives exactly if it
carries no readable marker, whoever wrote it (`SshJump.SurvivesIffForeign`); the privacy record changes in privacy mode
exactly by an operation that looked at the mode before it was turned on (`PrivacyRuns.RecordChangesInPrivacyMode`); there
is a live session without a password exactly if its verification overlaps a removal (`PrivacyRuns.SessionsWithoutPassword`),
and a token outlives a removal exactly in the same case (`PrivacyRuns.RemovalInvalidatesTokens`); flag and firewall agree in
exactly the cases of `Airgap.AgreementAfterCall`, which leave out a disable whose removal is stuck, because removal errors
are ignored (`Airgap.StuckDisable`); a watchdog start falls under an inhibit exactly if that was written between the check
and the start (`Watchdog.StartWhileInhibited`); an import is repeated exactly if the old single-shelf id stood for its shelf
and has gone to another (`Importer.RerunCreatesNothing`, `Importer.LegacyShelfIsCreatedAgain`); a dry run of the importer
changes its state file exactly if `--force-reuse` finds a book to reuse (`Importer.DryRunKeepsFile`).

## Model

| member | source | states |
|---|---|---|
| `SshGrantLine.PrintThenParse` | agent/sshjump_linux.go:405-423 | for every valid grant, parsing the printed line returns its id and expiry if and only if its host does not contain the marker |
| `SshGrantLine.SomeHostHidesTheMarker` | agent/sshjump_linux.go:527-544 | with the marker itself as host no valid grant's line parses back, so the condition is needed |
| `SshGrantLine.DialableLacksMarker` | agent/sshjump_linux.go:443-468 | no host that can be dialled (name, IPv4, IPv6 with or without zone) contains the marker |
| `SshGrantLine.DialledGrantReadsBack` | agent/sshjump_linux.go:529-544 | so every line the agent prints parses back to its id and expiry |
| `SshGrantLine.HiddenMarker` | agent/sshjump_linux.go:405-423 | a line whose host contains the marker reads as expired at time zero, whatever follows |
| `SshGrantLine.EntryIsALine` | agent/sshjump_linux.go:527-544 | a printed grant is a single non-blank line |
| `SshGrantLine.EntryText` | agent/sshjump_linux.go:529-544 | the text of a printed line, piece by piece |
| `SshJump.WriteThenRead` | agent/sshjump_linux.go:353-391 | writing any list of non-blank newline-free lines and reading it back is the identity |
| `SshJump.ContentLines` | agent/sshjump_linux.go:353-391 | the lines of the file after an edit are the edited lines, whether the rewrite was skipped or not |
| `SshJump.StepLines` | agent/sshjump_linux.go:546-657 | the effect of a grant, revoke, sweep or restart on the lines of any one file |
| `SshJump.ForeignLinesSurvive` | agent/sshjump_linux.go:486-657 | over every run, lines without a readable marker keep their text and order in every file |
| `SshJump.SurvivesIffForeign` | agent/sshjump_linux.go:405-423 | a line survives every run, in whatever file, exactly if it carries no readable marker |
| `SshJump.HandWrittenMarkerIsLost` | agent/sshjump_linux.go:414-417 | a line somebody else wrote with a note such as `obliance-grant:laptop` reads as expired and does not survive |
| `SshJump.OneLinePerGrant` | agent/sshjump_linux.go:546-557 | over every run, no file holds two lines of one grant with positive expiry; if no host contains the marker, no two lines of one grant at all |
| `SshJump.DialledHostIsClean` | agent/sshjump_linux.go:529-532 | the hosts the agent names meet the condition of the rows above |
| `SshJump.InstalledLinesExpire` | agent/sshjump_linux.go:494-557 | over every run, each line of the agent's that is new in a file comes from a grant of the run and expires within 15 minutes of it |
| `SshJump.RevokeReachesGrantedFiles` | agent/sshjump_linux.go:572-626 | after a revoke no file granted in this process, or configured, that could be rewritten holds a line of that grant |
| `SshJump.SweptFilesHoldRecentGrants` | agent/sshjump_linux.go:628-657 | after a sweep at a time no swept file holds a line expired by then, and each remaining line of the run was granted less than 15 minutes before |
| `SshJump.GrantEndsTheFile` | agent/sshjump_linux.go:546-557 | after a grant the file's last line is that grant, reads back as it, and no other line carries its id |
| `SshJump.Granted` | agent/sshjump_linux.go:486-503 | an accepted grant is valid, keeps its id and host, and expires between the minimum and 15 minutes from now; SshJump.InstalledLine says which time and when it is accepted |
| `SshJump.InstalledLine` | agent/sshjump_linux.go:486-563 | exactly when a grant is accepted, and the line it leaves: the requested expiry, or beyond 15 minutes the last whole second within them; options, host, stamp, key type, key and id as given, character by character |
| `SshJump.EditedExactly` | agent/sshjump_linux.go:546-648 | a revoke takes out exactly the lines of its grant, a sweep exactly the expired ones, a grant exactly the expired ones and its own earlier lines before it appends |
| `SshJump.EditsWhich` | agent/sshjump_linux.go:580-626 | exactly which files an event edits |
| `SshJump.OtherFilesStay` | agent/sshjump_linux.go:580-626 | every other file keeps its text |
| `SshJump.Base64Text` | agent/sshjump_linux.go:54 | the accepted base64 texts, character by character |
| `SshJump.FilterInPlace` | agent/sshjump_linux.go:547-555 | the loop over `lines[:0]` leaves the kept lines, in order, at the front of the same array |
| `SshJump.EditInPlace` | agent/sshjump_linux.go:546-557 | the whole closure, entry appended in place when there is room, equals the edit of the original lines |
| `SshJump.SameLines` | agent/sshjump_linux.go:363-377 | the comparison is true exactly when the edited lines equal the copy taken before |
| `SshJump.EditContent` | agent/sshjump_linux.go:353-388 | the rewrite is skipped only when the text would not change, and writes the edited lines otherwise |
| `SshJump.KeyFiles.RewriteKeyFile` | agent/sshjump_linux.go:352-393 | one file is rewritten by the edit, or nothing changes on an error |
| `SshJump.KeyFiles.Grant` | agent/sshjump_linux.go:486-563 | the handler's checks, cap and rewrite are the grant step: file rewritten and remembered exactly if the grant is accepted, refusals without effect |
| `SshJump.KeyFiles.RewriteKnown` | agent/sshjump_linux.go:580-626 | the loop rewrites exactly the known and configured files that exist and raise no error |
| `SshJump.KeyFiles.Revoke` | agent/sshjump_linux.go:572-594 | the handler is the revoke step |
| `SshJump.KeyFiles.Sweep` | agent/sshjump_linux.go:628-648 | the janitor's sweep is the sweep step |
| `PrivacyGate.BlockedTypesAreScoped` | agent/command_handler.go:101-128 | a command type is blocked by privacy if and only if it has a feature, so the scope of a token is never skipped |
| `CommandRuns.FeatureOfName` | agent/command_handler.go:101-128 | the twelve blocked command names, and which of them each of the four features covers |
| `PrivacyRuns.PurgesAreInvisible` | agent/privacy_gate.go:140-201 | for every interleaving with a non-decreasing clock, removing all purges leaves every operation as far as it came and with the same answer, and the two token maps stay related |
| `PrivacyRuns.PurgedStep` | agent/privacy_gate.go:165-201 | the relation between purged and unpurged states is kept by every single step, with equal answers |
| `PrivacyRuns.SessionHasChain` | agent/privacy_gate.go:140-189 | every session of every reachable state is the end of a chain of uses, gaps at most 15 minutes and 2 hours in all, begun by the write of a verification that had read a record whose hash its password reproduces, with no clearing removal since |
| `PrivacyRuns.WriteNeedsPassword` | agent/privacy_gate.go:99-163 | in every interleaving, what opens a session, clears the sessions, deletes the record or changes it has earlier read a record with kdf(password, salt) == hash |
| `PrivacyRuns.PasswordDecides` | agent/privacy_gate.go:106-148 | the look at the record decides: a password that reproduces its hash goes on, any other is refused, and record and sessions stay as they are |
| `PrivacyRuns.WrongPasswordHasNoEffect` | agent/privacy_gate.go:106-148 | after a look that does not match, the operation is refused for good and changes nothing at any later step |
| `PrivacyRuns.RecordOrigin` | agent/privacy_gate.go:80-119 | a record is the one stored at the start, or the hash of the new password of the latest set or change under that operation's salt, with no write or deletion since |
| `PrivacyRuns.AcceptedUseHasChain` | agent/privacy_gate.go:165-189 | a token is accepted only at the end of such a chain, password read included, whose scope covers the feature |
| `PrivacyRuns.BlockedCommandNeedsUnlock` | agent/command_handler.go:151-170 | in every interleaving, a blocked command that was let through either read the mode as off, or carried a bypass its gate honours, or ends such a chain, begun with a password that matched the record read, for its feature or for all |
| `PrivacyRuns.HubAdmissionCarriesOver` | agent/command_channel.go:213-241 | after the hub gate has accepted a token, whatever happens in between, the token check of ExecuteSync says yes exactly when no removal has cleared the sessions, the last accepted use is within 15 minutes and the session within 2 hours |
| `PrivacyRuns.SameInstant` | agent/command_channel.go:213-241 | whatever the hub gate has just let through, with or without a token, the gate of ExecuteSync lets through at the same instant |
| `PrivacyRuns.RemovalInvalidatesTokens` | agent/privacy_gate.go:121-189 | in every interleaving, until a password is written anew, a look-up after a successful removal accepts a token exactly if a verification that looked at the record before the removal ended has opened it and its session is alive by the events: not cleared since, both windows open, scope covered |
| `PrivacyRuns.TokensAfterRemoval` | agent/privacy_gate.go:121-189 | without that limit: exactly such a token, or one verified after a password was written anew |
| `PrivacyRuns.AcceptedIff` | agent/privacy_gate.go:165-189 | in every interleaving, a look-up accepts a token exactly if its latest opening was not cleared since, its last accepted use is within 15 minutes, the opening within 2 hours, and the scope covers the feature |
| `PrivacyRuns.AliveIff` | agent/privacy_gate.go:165-201 | a token has a live session exactly under the first three of these conditions on the events |
| `PrivacyRuns.PasswordComesBack` | agent/privacy_gate.go:99-119 | the first record written after a removal is a set's, or a change's whose own look at the record came before the removal ended |
| `PrivacyRuns.RecordChangesInPrivacyMode` | agent/privacy_gate.go:80-137 | in every interleaving, the record changes in privacy mode exactly by a write or deletion whose own check of the mode came before the mode was turned on |
| `PrivacyRuns.SessionsWithoutPassword` | agent/privacy_gate.go:121-163 | in every interleaving, there is a live session without a stored password exactly if the events contain a verification whose session is alive, opened after the clearing and checked before the deletion of a removal, with nothing written since |
| `PrivacyRuns.Uninterrupted` | agent/privacy_gate.go:80-189 | the single steps of any operation, run without interruption, are the whole operation |
| `PrivacyRuns.EarlyCheckOutlives` | agent/privacy_gate.go:121-163 | a run in which a verification checked before a removal writes after it: the token works without a password |
| `PrivacyRuns.InBetweenOutlives` | agent/privacy_gate.go:132-136 | a run with a whole verification between the two writes of a removal: likewise |
| `PrivacyRuns.OvertakenSet` | agent/privacy_gate.go:80-97 | a run in which privacy mode is turned on between a set's checks and its write |
| `PrivacyGate.Store.Remove` | agent/privacy_gate.go:121-138 | done exactly without a stored password or with a password that reproduces its hash; a wrong password changes neither record nor sessions; privacy mode refuses |
| `PrivacyGate.Store.Verify` | agent/privacy_gate.go:140-163 | opens a session exactly if a password is stored and kdf(password, salt) == hash; otherwise refused without effect |
| `PrivacyGate.Store.Change` | agent/privacy_gate.go:99-119 | replaces the record exactly with privacy mode off, a stored password that the old one reproduces, a non-empty new one and no error |
| `PrivacyGate.Store.CheckUnlockToken` | agent/privacy_gate.go:165-189 | says yes exactly for a known token created within 2 hours and used within 15 minutes whose scope covers the feature; and the session map each answer leaves |
| `PrivacyGate.Store.AdmitCommand` | agent/command_handler.go:151-170 | passes freely exactly with privacy mode off, an unblocked type or a bypass flag outside the hub; otherwise as the token check for the type's feature says |
| `PrivacyGate.Store.PurgeExpiredUnlocks` | agent/privacy_gate.go:192-201 | the loop removes exactly the sessions older than 2 hours or unused for 15 minutes |
| `Dispatcher.AckQueue.AddAck` | agent/command_handler.go:76-80 | appends in place or into a larger copy; the pending list gains the ack and every batch handed out before keeps its content |
| `Dispatcher.AckQueue.GetAndClearAcks` | agent/command_handler.go:63-73 | returns a fresh copy of the pending list and truncates it in place; batches and pending together stay the acks added |
| `Dispatcher.RunIsConsistent` | agent/command_handler.go:63-170 | every interleaving keeps batches and pending list equal to the acks added, and each command's acks those of its phase |
| `Dispatcher.FinishedInvocations` | agent/command_handler.go:86-170 | a command that has ended contributed ack_running and then exactly one terminal ack, also on panic and refusal; batches followed by the pending list are all acks in order |
| `Dispatcher.SuccessNeedsAResult` | agent/command_handler.go:369-404 | success is reported only after a handler returned a result, with the expected exit code if a script ran |
| `Dispatcher.TailDecides` | agent/command_handler.go:369-404 | the tail sends success exactly after a result, for a run_script exactly with the expected exit code, and failure otherwise |
| `Dispatcher.TailNeedsFinish` | agent/command_handler.go:369-404 | a command is at the tail only after its handler finished with the outcome it reports |
| `Dispatcher.Replay` | agent/command_handler.go:63-170 | any interleaving of the commands' steps on the queue with its reused array: each batch still reads as drained, and batches followed by the pending list are the commands' acks in order |
| `CommandRuns.HandledCommandsWereAdmitted` | agent/command_handler.go:130-172 | dispatcher and privacy gate in one run: a blocked command is in its handler only if its gate read the mode as off, honoured its bypass flag, or looked its token up at the end of a chain begun with a password that matched the record read, for its feature or for all |
| `CommandRuns.EveryRunIsGated` | agent/command_handler.go:130-172 | in every interleaving every command has a gate of its own and is in its handler only once that gate has let it through |
| `WebSocket.FrameRoundTrip` | agent/websocket.go:170-259 | decoding an encoded frame in front of any bytes gives the frame and stops at its end; the opcode comes back whole exactly if it fits four bits |
| `WebSocket.FrameIsNeededWhole` | agent/websocket.go:170-218 | no proper prefix of an encoded frame decodes |
| `WebSocket.StreamRoundTrip` | agent/websocket.go:170-259 | every concatenation of written frames decodes to exactly those frames with nothing left over |
| `WebSocket.CutStream` | agent/websocket.go:170-218 | a stream cut anywhere decodes to exactly the frames whole before the cut |
| `WebSocket.ConcurrentSenders` | agent/command_channel.go:57-71 | whatever the order of concurrent single writes, the reader gets each sender's frames complete and in that sender's order |
| `WebSocket.ConcurrentSendersCut` | agent/websocket.go:256-258 | the same where the connection is cut: of every sender the reader gets the first frames, those written whole before the cut |
| `WebSocket.MaskTwice` | agent/websocket.go:211-215 | masking twice with one key is the identity |
| `WebSocket.LengthReadsBack` | agent/websocket.go:184-197 | the length code and extension of each of the three classes read back as the length |
| `WebSocket.WriteFrame` | agent/websocket.go:223-259 | the frame byte by byte (section 5.2 of RFC 6455): FIN and opcode, mask bit and the shortest of the three length forms, big-endian length, key, and each payload byte the bitwise exclusive or with the key byte in turn |
| `WebSocket.EncodeBytes` | agent/websocket.go:223-259 | the same of every encoded frame, masked or not |
| `WebSocket.XorBitsAt` | agent/websocket.go:252-254 | each bit of the masked byte is set exactly if the two bits differ |
| `WebSocket.Reader.ReadFull` | agent/websocket.go:199-210 | the next bytes, or end of input with everything consumed |
| `WebSocket.Reader.ReadHeader` | agent/websocket.go:171-197 | opcode, mask bit and length of the frame at the reading position |
| `WebSocket.Reader.ReadBody` | agent/websocket.go:199-217 | the payload, unmasked |
| `WebSocket.Reader.ReadFrame` | agent/websocket.go:170-218 | reads the frame that decodes at the position and moves past it, or consumes the rest |
| `WebSocket.Unmask` | agent/websocket.go:211-215 | the in-place loop computes the masked payload |
| `VmConsole.EveryFrameIsAnnounced` | agent/vmconsole/vmconsole.c:142-182 | in every paint history each frame follows an init with the size of the encoder that produced it and no other init between |
| `VmConsole.PaintAdds` | agent/vmconsole/vmconsole.c:142-182 | each paint adds exactly an init if it has a picture and an encoder of its size is only now set up, and a frame if it has a picture, an encoder and some output |
| `VmConsole.EncoderIs` | agent/vmconsole/vmconsole.c:149-160 | an encoder of a size is open exactly if some paint of that size could set one up and every later picture has that size |
| `VmConsole.PicturesAreShown` | agent/vmconsole/vmconsole.c:173-175 | over every paint history, the frames' data are exactly the outputs to be shown, none lost, added or reordered |
| `VmConsole.PutU32ReadsBack` | agent/vmconsole/vmconsole.c:61-66 | the four bytes read back as the value modulo 2^32 |
| `VmConsole.PipeRoundTrip` | agent/vmconsole_windows.go:262-297 | from a pipe cut anywhere the reader recovers exactly the messages written whole before the cut, and the beginning of the next is left over |
| `VmConsole.HelperToAgent` | agent/vmconsole_windows.go:262-297 | from a pipe cut anywhere the agent forwards exactly what the whole messages before the cut mean |
| `VmConsole.ForwardIs` | agent/vmconsole_windows.go:277-296 | an init of at least eight bytes and a frame are forwarded, every other message is ignored |
| `VmConsole.AgentToServer` | agent/vmconsole_windows.go:277-295 | what the agent forwards decodes at the server to those messages |
| `VmConsole.PaintsReachTheServer` | agent/vmconsole_windows.go:262-297 | both protocols composed: for every paint history, cut of the pipe, masking keys, interleaving with pings and pongs and cut of the connection, the server decodes of the relay exactly the announced sizes as JSON text and the shown outputs behind a 0x02, as far as they were sent whole, all of them without a cut |
| `VmConsole.Helper.EmitInit` | agent/vmconsole/vmconsole.c:68-79 | writes 'I', the length 8 and the two sizes as little-endian 32-bit numbers, unless one was sent for this encoder |
| `VmConsole.Helper.EmitFrame` | agent/vmconsole/vmconsole.c:81-90 | writes 'F', the little-endian length and the data |
| `VmConsole.Helper.PaintOne` | agent/vmconsole/vmconsole.c:142-182 | the encoder and the bytes written follow the paint step, including a failed encoder setup |
| `VmConsole.Helper.EndPaintCallback` | agent/vmconsole/vmconsole.c:142-182 | after any callbacks the bytes written are the encoding of the paint history's messages |
| `VmConsole.RelayLoop` | agent/vmconsole_windows.go:262-297 | the loop forwards exactly what the pipe's complete messages mean |
| `Airgap.AirgapVerdict` | agent/airgap_linux.go:26-67 | with the airgap in force over any rules, both hooks accept exactly loopback, established, UDP port 53 and server traffic and drop the rest |
| `Airgap.OneJumpPerHook` | agent/airgap_linux.go:58-67 | then each hook holds exactly one jump |
| `Airgap.RemovalEnds` | agent/airgap_linux.go:72-90 | from the flush on: other rules unchanged, and the chain gone exactly when jumps, references and failures allow |
| `Airgap.RemovalOutcome` | agent/airgap_linux.go:72-90 | a removal restores the rule set exactly when no command with work to do is stuck and nothing foreign refers to the chain |
| `Airgap.QuietRemoval` | agent/airgap_linux.go:72-90 | with no command stuck, only a foreign reference can keep the chain |
| `Airgap.AgreementAfterCall` | agent/airgap.go:49-98 | exactly when a call of the mode switch leaves flag and firewall in agreement, from which removing commands are stuck and which building command failed |
| `Airgap.StuckDisable` | agent/airgap.go:64-68 | a disable whose first deletion is stuck succeeds and clears the flag with the airgap still there |
| `Airgap.UndisturbedAgreement` | agent/airgap.go:49-98 | with no removing command stuck and no foreign reference, every success agrees and a failed enable does exactly if the flag was off |
| `Airgap.RollbackWorks` | agent/airgap_linux.go:50-90 | exactly which removing commands a rollback after q building commands depends on |
| `Airgap.Firewall.DeleteJumps` | agent/airgap_linux.go:74-83 | the loop terminates on the jumps left and deletes all of them exactly when no deletion that has one to delete fails |
| `Airgap.Firewall.Remove` | agent/airgap_linux.go:72-90 | the removal outcome, from any rule set |
| `Airgap.Firewall.BuildRules` | agent/airgap_linux.go:26-48 | the list of rules, in order, for any server addresses |
| `Airgap.Firewall.AppendAll` | agent/airgap_linux.go:50-56 | appends in order and touches nothing else; complete exactly when no command fails |
| `Airgap.Firewall.Build` | agent/airgap_linux.go:50-67 | succeeds exactly when none of its commands fails; leaves the rule set of the commands before the first failure |
| `Airgap.Firewall.Apply` | agent/airgap_linux.go:14-68 | succeeds exactly when the stale rules can be removed and none of its commands fails, and then the airgap is in force over the other rules; a failure leaves no trace exactly when the stale rules and what was built could be removed; other rules survive in every case |
| `Airgap.Agent.SetMode` | agent/airgap.go:49-98 | exactly which outcome follows from which failure; flag and file move together and only on success; exactly when the airgap is then off, on any machine |
| `Airgap.Agent.Load` | agent/airgap.go:102-125 | the flag follows the file; the rules are re-applied exactly when it is on and applying succeeds; otherwise off exactly when the rollback works |
| `Tunnel.NextKeepsInv` | agent/tunnel.go:192-276 | every step of every goroutine keeps the tunnel's invariant, and what is closed stays closed |
| `Tunnel.EveryRunIsConsistent` | agent/tunnel.go:42-102 | in every interleaving every tunnel keeps its invariant, the registry holds exactly the listed tunnels and the session file tells their number |
| `Tunnel.AtMostOnce` | agent/tunnel.go:42-56 | in every run from the start: channel closed at most once, one taker at most, shell closed at most once |
| `Tunnel.WorkNeverGrows` | agent/tunnel.go:192-276 | no step adds work, and a step of a decisive goroutine removes some |
| `Tunnel.SomeoneIsDecisive` | agent/tunnel.go:192-276 | once the channel is closed and until all goroutines have ended, some goroutine is unblocked and decisive |
| `Tunnel.DecisiveIsStable` | agent/tunnel.go:192-276 | it stays so until it moves itself |
| `Tunnel.QuietIsClean` | agent/tunnel.go:307-397 | when all goroutines have ended: channel closed once, connections closed, entry gone, shell closed once |
| `Tunnel.ClosedTunnelsEnd` | agent/tunnel.go:192-424 | once closed, every fair schedule of all tunnels brings this one to that clean end within a bounded number of rounds |
| `Tunnel.TakerShuts` | agent/tunnel.go:403-424 | the steps of an undisturbed close command are one call of close |
| `Tunnel.TunnelState.Close` | agent/tunnel.go:49-55 | closes the channel once, the WebSocket, and the service connection if there is one |
| `Tunnel.Registry.Add` | agent/tunnel.go:67-72 | the entry is added and the session file agrees |
| `Tunnel.Registry.Remove` | agent/tunnel.go:74-79 | the entry is gone and the session file agrees |
| `Tunnel.Registry.Take` | agent/tunnel.go:81-90 | returns and unlists the entry in one step, nothing if there is none |
| `Tunnel.Registry.CloseRemoteTunnel` | agent/tunnel.go:403-424 | a found tunnel is unlisted and shut, a missing one reported |
| `Importer.CreatedAtMostOnce` | docs-import/import.js:113-263 | over any sequence of runs, any manifests and modes, aborting at any call: a key in the file is never created, any other key at most once plus one per creation whose answer was lost |
| `Importer.CreationsAreFiled` | docs-import/import.js:154-257 | over any sequence of runs, every creation refers to tracked parents (a chapter to its book, a page to its chapter, a shelf to tracked books) and every answer is the id the file tracks |
| `Importer.PageImported` | docs-import/import.js:173-190 | after a completed apply run, for slugs without slashes: every listed page is tracked under its three slugs, and unless it was before, was created exactly once, with its title, under its own chapter |
| `Importer.ChapterImported` | docs-import/import.js:154-171 | the same for every listed chapter, under its own book |
| `Importer.BookImported` | docs-import/import.js:122-152 | the same for every listed book, without --force-reuse |
| `Importer.PathsDiffer` | docs-import/import.js:155-174 | for slugs without slashes, two chapter or page keys are equal exactly if all slugs are |
| `Importer.SlashCollides` | docs-import/import.js:155-174 | with a slash in a slug, two chapters can share a key |
| `Importer.RerunCreatesNothing` | docs-import/import.js:192-263 | after a completed apply run and any other runs, a run of the same manifest creates nothing and leaves the file alone, and if it completes without --force-reuse exactly so, unless the single-shelf id stood for its first shelf and has gone to another |
| `Importer.CreatesNothingIffCovered` | docs-import/import.js:192-263 | an apply run without --force-reuse that completes creates nothing exactly if the file covered the manifest before |
| `Importer.DryRunKeepsFile` | docs-import/import.js:122-152 | a completed dry run issues only GETs and leaves the state file alone exactly without --force-reuse or when no untracked book of the manifest has its title on the server |
| `Importer.CoverageStays` | docs-import/import.js:223-227 | exactly when a covered manifest stays covered as the file grows |
| `Importer.LegacyShelfIsCreatedAgain` | docs-import/import.js:223-227 | three runs of the script from a single-shelf file and a server that holds that shelf: the second manifest takes the id and renames the shelf, and the third run creates the first manifest's shelf again |
| `Importer.TrackedMeansCreated` | docs-import/import.js:122-263 | over any runs without --force-reuse and without a single-shelf id, each key is gained by exactly one answered creation |
| `Importer.ChainLedger` | docs-import/import.js:113-263 | over any sequence of runs, answered creations never exceed keys gained |
| `Importer.MadeIsAnsweredOrLost` | docs-import/import.js:67-81 | every object made for a key was answered for or lost |
| `Importer.Script.EnsureBook` | docs-import/import.js:122-152 | tracked, found (refused or reused), dry run or created, each with its effect on file, log and server; the id is that of a book with this title; completes when nothing fails and no foreign book has the name |
| `Importer.Script.EnsureChapter` | docs-import/import.js:154-171 | creates an untracked chapter with its title under its book's tracked id, only when applying |
| `Importer.Script.EnsurePage` | docs-import/import.js:173-190 | creates an untracked page with its title under its chapter's tracked id and its own three slugs, only when applying and if its file is readable |
| `Importer.Script.ImportBook` | docs-import/import.js:203-215 | on completion of an apply run the book, its chapters and pages are tracked; a covered book changes nothing; exactly when a dry run changes the file |
| `Importer.Script.MergeBooksIntoShelf` | docs-import/import.js:113-118 | the PUT carries, and the shelf then holds, exactly its former books and the new ones; nothing is created |
| `Importer.Script.EnsureShelf` | docs-import/import.js:229-263 | tracked, found, dry run or created; a tracked shelf leaves the file alone and creates nothing |
| `Importer.Script.ImportBooks` | docs-import/import.js:202-216 | on completion of an apply run every book, chapter and page is tracked; a covered manifest changes nothing at all |
| `Importer.Script.ImportShelves` | docs-import/import.js:223-263 | on completion of an apply run every shelf is tracked and holds every book |
| `Importer.Script.Run` | docs-import/import.js:192-263 | a whole run: only GETs without --apply, only listed keys tracked, every creation one that the manifest lists in its place and with its title, shelves never shrink and get only listed names, complete coverage on success, no creation when covered, every gained key created or adopted, nothing gained without a creation unless reused, and the ledger; completes when nothing fails or hinders |
| `Subnet.NextValue` | agent/network_scan.go:391-398 | the increment is plus one modulo 256^n on the big-endian value |
| `Subnet.IncIp` | agent/network_scan.go:391-398 | the in-place carry loop is that increment |
| `Subnet.MaskedValue` | agent/network_scan.go:381 | masking rounds the value down to a multiple of 2^h |
| `Subnet.SameNetwork` | agent/network_scan.go:381 | the containment check holds exactly when the values round down alike |
| `Subnet.Leaves` | agent/network_scan.go:381-383 | the loop goes on for exactly the 2^h addresses of the subnet, also where the last increment wraps to zero |
| `Subnet.MaskIp` | agent/network_scan.go:381 | the byte loop computes the masked address |
| `Subnet.Contains` | agent/network_scan.go:381 | the byte loop decides equality of the masked addresses |
| `Subnet.Enumerate` | agent/network_scan.go:380-383 | terminates with all 2^h addresses in order |
| `Subnet.SubnetIps` | agent/network_scan.go:368-389 | nothing above 12 host bits; otherwise base+1 .. base+2^h-2 for h >= 2 and all addresses for h <= 1, in order |
| `Subnet.ListsExactly` | agent/network_scan.go:380-388 | such a list is strictly increasing, free of duplicates, and holds exactly the addresses of its range |
| `Versions.CompareVersions` | agent/software_compliance.go:407-430 | -1, 1 and 0 exactly when the first differing number is smaller, larger, or there is none |
| `Versions.Trichotomy` | agent/software_compliance.go:407-430 | exactly one of the three holds of any two versions |
| `Versions.TotalPreorder` | agent/software_compliance.go:407-430 | total and transitive, strictly where either step is strict |
| `Versions.TrailingZero` | agent/software_compliance.go:410-421 | appending any part that reads as zero changes nothing |
| `Versions.TrailingZeros` | agent/software_compliance.go:410-421 | appending any number of ".0" changes nothing |
| `Versions.WrittenNumbers` | agent/software_compliance.go:408-421 | a version written as dotted decimals reads back as its numbers, then zeros |
| `Versions.PartIs` | agent/software_compliance.go:416-421 | a part's number is its signed decimal beginning after spaces, up to the first other character; out of range it is zero |
| `Versions.PartIsZero` | agent/software_compliance.go:416-421 | a part without such a beginning is zero |
| `Versions.MatchSoftwareEntry` | agent/software_compliance.go:356-403 | the first item that meets name, publisher and window, or nothing when none does |
| `Versions.MeetsIs` | agent/software_compliance.go:357-398 | what it takes to meet an entry, condition by condition |
| `Versions.WindowIsConvex` | agent/software_compliance.go:388-398 | a version between two versions of the window is in the window |
| `Versions.EmptyWindow` | agent/software_compliance.go:388-398 | some known version is in the window exactly when the lower bound is at most the upper; otherwise only unknown versions pass |
| `CsvLine.ParseCsvLine` | agent/processes.go:224-246 | the index loop computes the recursive reading of the line |
| `CsvLine.WriteThenParse` | agent/processes.go:224-246 | any non-empty list of quoted fields, clean raw fields mixed in, parses back to its texts (section 2 of RFC 4180) |
| `CsvLine.RawFieldsSurvive` | agent/processes.go:224-246 | fields written without quotes parse back exactly when none holds a comma or a quote |
| `Watchdog.EveryRestartIsAccountedFor` | agent/watchdog.go:70-107 | in every interleaving, recorded restarts = in the file + with the push under way + delivered + lost to a panic; every time reported was recorded |
| `Watchdog.RecordedIsKeptOrDelivered` | agent/push.go:218-263 | between pushes and without panics, recorded = in the file + carried by pushes that got an HTTP response |
| `Watchdog.RestoreKeepsOrder` | agent/watchdog.go:89-107 | putting restarts back keeps the list in time order exactly when nothing later was recorded meanwhile |
| `Watchdog.RestoredListOutOfOrder` | agent/watchdog.go:89-107 | a run after which the list is out of order |
| `Watchdog.InhibitNeverShortened` | agent/watchdog.go:111-142 | over every run without a clear, the inhibit time never decreases |
| `Watchdog.NoStartBeforeExpiry` | agent/cmd/watchdog/main.go:151-191 | from between two watchdog runs, with an inhibit in force and no clear, nothing is started before it expires |
| `Watchdog.StartWhileInhibited` | agent/cmd/watchdog/main.go:156-187 | every start rests on a check that found no inhibit, and falls under one exactly if the agent wrote it between check and start, lasting beyond the start and not cleared |
| `Watchdog.LateInhibitIsMissed` | agent/cmd/watchdog/main.go:156-187 | a run with such a start |
| `Watchdog.StartEvidence` | agent/cmd/watchdog/main.go:151-191 | in every interleaving a start follows "no agent process", which follows "service down", which follows a check that found no inhibit |
| `Watchdog.StateFile.DrainRestarts` | agent/watchdog.go:70-84 | the number of restarts and the last of them; the list is then empty, the inhibit kept |
| `Watchdog.PushOutcome` | agent/push.go:241-263 | any HTTP response delivers what a push carried, a failure before one puts it back, a panic loses it |
| `Watchdog.StateFile.RestoreRestarts` | agent/watchdog.go:89-107 | the count is appended as copies of the last time |
| `Watchdog.StateFile.InhibitWatchdog` | agent/watchdog.go:111-130 | the later of the old and the new time, to whole seconds |
| `Watchdog.StateFile.IsInhibited` | agent/cmd/watchdog/main.go:71-80 | true exactly before a parsable inhibit time |
| `Watchdog.StateFile.Tick` | agent/cmd/watchdog/main.go:151-191 | a start is attempted exactly when not inhibited, the check works, the service is down and no process lives; it is recorded exactly if it succeeds |
| `PushLoop.LevelCountsRefusals` | agent/push.go:270-380 | in every run the level is the number of 401 replies since the last 200 or restart |
| `PushLoop.NoPushDuringBackoff` | agent/main.go:620-647 | with a non-decreasing clock, every push after a 401 starts only when that 401's step of 300, 600, 1800, 3600, 3600, ... seconds is over, or after a restart |
| `PushLoop.RefusedDeviceSlowsDown` | agent/push.go:371-380 | between two pushes without a 200 or a restart the back-offs of all 401 replies have run in full |
| `PushLoop.IntervalStaysPositive` | agent/push.go:275-290 | over every run a positive interval stays positive |
| `PushLoop.IntervalSettles` | agent/push.go:275-290 | the same reply again keeps the interval exactly unless it carries two different positive intervals; then the interval swings between them |
| `PushLoop.Agent.OnReply` | agent/push.go:270-384 | the new interval, back-off and level for every status: 5, 10, 30 and then 60 minutes for a 401; reset by a 200; for 200 and 202 nextPollIn if positive and new, else the push interval, else the check interval, if positive |
| `PushLoop.Agent.NextWait` | agent/main.go:620-630 | waits exactly during a back-off, at most 60 s and never past its end |

## Left out

- Command handlers, inventory, updates, metrics, installers, services, the tray and the wizards: a handler is an arbitrary result, error or panic.
- agent/airgap_windows.go, server/src and client/src: opaque firewall profiles, wiring and views.
- Acks and events lost with a failed push: they are drained before the request and never put back, so no delivery is claimed.
- The remaining fields a 200 reply updates (scan interval, task delay, remediation flag) and the command lists of the two dispatch switches: finite copies.
- Session registry of the VM console, the helper's raw-file mode and its frame limit: they do not touch the stream protocol.
- Fragment reassembly: ReadFrame ignores FIN, and so does the model. A length too large to allocate is not modelled.
- Strings are sequences of Unicode scalar values; invalid UTF-8 is not modelled.
- SshJump.Granted: the check that the base64 blob names the key type, and the checks of sshd and of the account, are one `fault` parameter.
- SshJump.OneLinePerGrant: a line whose host contains the marker reads as expired and under another id, so with such hosts, which cannot be dialled, only lines with positive expiry are counted.
- Airgap.AirgapVerdict: which packets an address argument covers is a parameter, so host names and CIDR arguments are whatever iptables makes of them.
- Airgap.Agent.SetMode: a state file that could not be written is taken to be unchanged.
- Airgap.Agent.Load: a file that cannot be read or parsed is a missing file.
- Tunnel.EveryRunIsConsistent: session tokens are distinct; with a reused token the relay of the old tunnel would unlist the new one. The session file is written without error.
- Tunnel.ClosedTunnelsEnd: a write to the service or the shell returns; a peer that never reads is not modelled. Handshakes and dialling are not modelled.
- Importer.CreatedAtMostOnce: the state file persists between runs and no second run overlaps; a write of it that fails counts as a lost answer. Ids from the server are positive.
- Importer.Script.MergeBooksIntoShelf: nobody else changes the shelf between its GET and its PUT.
- PrivacyRuns.HubAdmissionCarriesOver: random tokens are taken to be distinct.
- PrivacyRuns.SessionsWithoutPassword: salts and hashes are taken to be non-empty.
- PushLoop.IntervalStaysPositive: a changed interval is taken to be saved before a restart.
- Importer.Script.EnsureBook: state keys that are names of JavaScript's own object properties, such as a slug "constructor", read as tracked without being so; the model's keys are plain.
- Importer.Script.Run: the same holds for chapters, pages and shelves.
- Importer.PageImported: slugs with slashes can share a key (Importer.SlashCollides), so it is stated for slugs without; the text of a page is not modelled.
- Importer.Script.ImportBooks: the search answer is any object of exactly that name; its limit of 50 results is not modelled.
- Subnet.SubnetIps: starts from the parsed address and mask; the text forms of CIDR and addresses are not modelled.
- Versions.CompareVersions: numbers are 64-bit, as on 64-bit platforms.
- Versions.MatchSoftwareEntry: lower-casing, case folding and regular expressions are parameters.
- CsvLine.ParseCsvLine: on characters; the original works on bytes, of which only the comma and the quote matter.
- Watchdog.EveryRestartIsAccountedFor: each read-modify-write of the file is one step and succeeds; the two processes share no lock.
- PushLoop.NoPushDuringBackoff: the wall clock does not go back.
