# openkanban: the daemon core and its codecs, in Dafny

openkanban runs coding agents in pseudo-terminals owned by a background daemon
and shows them in terminal clients. This project models the parts in which
concurrency, crash safety or an exact inverse decides whether that is right, and
proves what they promise. `dafny verify dfyconfig.toml` checks all of it.

**Session lifecycle** (`Registry`, `Sessions`, `Orphans`, `Daemon`, `Clients`). `Registry` is
the copy-on-write session registry. `Sessions` is a step system: a spawn is the
steps gate, lookup, fork, store, recheck and undo; kills, ticket-done requests,
natural exits, shutdown requests and the cleanup take their own steps; any actor
may move between any two. `Orphans` settles the one exit that drains without the
shutdown flag. `Daemon` holds the handlers, together with the kills they start, as
methods over the registry whose critical sections are exactly those steps.
`Clients` holds the client table, the exit intents and the default-mode lifecycle.

**Attach** (`Attach`, `PaneView`, `Render`). The daemon side of attach, takeover
and detach; the client side with its read loops, detach channel and polls; and
the coalesced render signal. Each is a step system with a class that refines it.

**Screen transfer** (`Decimal`, `Glyphs`, `Terminal`, `StyleReplay`, `Redraw`,
`RowReplay`, `ScrollbackReplay`, `ScreenReplay`, `SnapshotReplay`). The serializer
that turns a screen into terminal bytes, and a reference terminal for what it
emits: RIS, ED, CUP and SGR (sections 8.3.105, 8.3.39, 8.3.21 and 8.3.117 of
ECMA-48), extended colours (section 13.1.8 of ITU-T T.416), the private modes
1049, 1000, 1006 and 25, OSC 2, CR LF, printing with a pending wrap, scrolling.
Widths of characters are a parameter `cw`.

**Wire** (`Wire`, `Transfer`, `Rpc`, `Client`). Framing, snapshot chunks, and the
pairing of replies with calls that carry no request ids.

**Migration** (`Migration`, `MigrationRun`). The move from one JSON file to one
Markdown file per ticket, as file operations each of which may succeed, fail or
be cut short by a crash.

**Text and lists** (`Text`, `TicketMd`, `Template`, `Brief`, `BriefLaws`,
`BriefMerge`, `Settings`). Ticket files, the managed block of a brief with the
`$` references that Go's replacement expands, and the merging and pruning of
permission lists.

What the proofs found where code and comments part ways; the model follows the
code:

- A snapshot's history does not all reach the client's scrollback
  (internal/daemon/session.go:508-511): the redraw's RIS erases the last h - 1
  rows, so all of it arrives only when there is none or h is 1
  (`SnapshotReplay.HistoryCompleteIff`).
- The drain watcher does not always cover a client that returns and leaves
  (internal/daemon/server.go:676-683): if the last client leaves sessions behind
  between the watcher's look at the client count and the clearing of
  `drainPending`, nobody watches any more (`Clients.SlippingLosesTheWatcher`).
- A frame cut off right after its 4-byte header reads as a clean end of file, not
  as an unexpected one (internal/daemon/protocol.go:105-109;
  `Wire.PrefixReadsWholeFrames`).
- The accept-error exit (internal/daemon/server.go:549-551) drains without the
  shutdown flag. It leaves an orphan if and only if the flag is down and a spawn is
  under way that can still store a living session (`Orphans.OrphanIffHazard`).
  `shutdownDrain` closes the connections and waits for their handlers first
  (internal/daemon/server.go:981-983), so no new request follows, and only a spawn
  that outlived its handler's deadline (internal/daemon/server.go:63-87) can be
  caught so; in default mode without live sessions the last handler to end raises
  the flag before the drain.
- Repeated upserts of a brief converge (internal/agent/brief.go:179-182) exactly
  under `BriefLaws.Settles`; a description such as `costs $5` loses its price on
  the second one (`BriefLaws.PriceIsLost`).
- A ticket's description loses leading newlines as well as trailing ones
  (internal/project/ticket_md.go:224-227; `TicketMd.UnchangedIff`).
- Two tickets whose slug and first eight id characters agree share a file name. An
  uninterrupted migration then reports success and retires the legacy file although
  a ticket is lost, and it keeps every ticket exactly when no names collide
  (`MigrationRun.MigrationKeepsAllIff`, `MigrationRun.MigrateColliding`).
- An output signal dropped at a full queue silences the rest of the attach exactly
  when the pending flag is set and no other signal is outstanding; any other drop is
  harmless (`Render.SilencedIffMuted`).
- A call can get an abandoned call's reply if and only if, when it begins, the link
  is open and such a reply, or a request still to be answered, has not been assigned
  to a channel (`Rpc.MispairIff`).

## Model

| member | source | states |
|---|---|---|
| Registry.SessionRegistry.FindByTicket | internal/daemon/registry.go:47-57 | the empty ticket and a ticket without owner give nothing; otherwise the answer is an owner |
| Registry.SessionRegistry.CloneLocked | internal/daemon/registry.go:60-67 | the clone is a new cell with the same entries, so no published map is ever written |
| Registry.SessionRegistry.Delete | internal/daemon/registry.go:77-83 | publishes a new map without the id and with every other entry |
| Registry.SessionRegistry.DeleteIf | internal/daemon/registry.go:88-99 | removes the id exactly while it names this very session, and publishes nothing otherwise |
| Registry.SessionRegistry.StoreIfNoTicket | internal/daemon/registry.go:104-118 | stores exactly when the ticket has no owner; otherwise returns an owner and leaves the map alone |
| Registry.SessionRegistry.Drain | internal/daemon/registry.go:122-133 | empties the registry and hands over precisely what it held |
| Registry.SnapshotOutlivesWrites | internal/daemon/registry.go:33-35 | a map taken before any sequence of writes still reads the same, and the registry holds what those writes make of it |
| Sessions.EventKeepsInv | internal/daemon/server.go:1363-1452 | every step of every actor keeps: unique tickets, keyed registry, each forked session dead, registered or owed by somebody, and after a flagged cleanup only spawns still to recheck have sessions registered |
| Sessions.NoOrphanSurvivesShutdown | internal/daemon/server.go:1022-1043 | in any interleaving, after a cleanup that drained behind the flag and with nothing in flight, the registry is empty and every session ever forked has exited or been killed |
| Sessions.TicketsAreUnique | internal/daemon/registry.go:104-118 | in every reachable state two registered sessions with one ticket are the same session |
| Sessions.AnswerOwnedDuringCall | internal/daemon/server.go:1393-1419 | a successful spawn names a session that was the registered owner of its ticket at some instant of the call |
| Sessions.AcceptErrorCanOrphan | internal/daemon/server.go:549-551 | a concrete run in which the unflagged drain leaves a live registered session with nothing in flight |
| Orphans.HarmlessDrain | internal/daemon/server.go:549-551 | after an unflagged drain that finds no spawn able to store a living session, and with no new spawn entered, only dead sessions are ever registered, everything forked is dead once all is at rest, and the registry stays empty if no spawn had yet to store |
| Orphans.HazardOrphans | internal/daemon/server.go:549-551 | from any reachable state with the flag down and such a spawn under way, the drain goes on to a state with all at rest in which that spawn has answered with a registered living session |
| Orphans.OrphanIffHazard | internal/daemon/server.go:549-551 | such a drain can leave an orphan if and only if the flag is down and such a spawn is under way |
| Orphans.ForkIsExclusive | internal/daemon/server.go:1402-1411 | in every reachable state a forked session that is not stored is unregistered and in nobody else's hands |
| Sessions.RegStepKeeps | internal/daemon/registry.go:69-118 | unregistering, and registering for an unowned ticket, keep tickets unique and entries under their own ids |
| Daemon.Daemon.HandleSpawn | internal/daemon/server.go:1363-1452 | with other actors moving between its steps, answers with an owner of the ticket at some instant since the request, or refuses: always for the empty ticket or once the shutdown has begun, otherwise only for a shutdown meanwhile or a child that does not start |
| Daemon.Daemon.Settle | internal/daemon/server.go:1400-1452 | the fork is the answer, or it is dead; with no answer it has been unregistered as well |
| Daemon.Daemon.HandleKill | internal/daemon/server.go:1577-1606 | as separate steps with others in between: what it found was registered under the id at an instant of the call, was unregistered at a later one and is dead; it finds nothing only when the id named nothing at such an instant |
| Daemon.Daemon.HandleTicketDone | internal/daemon/server.go:1632-1667 | its matches are exactly the ticket's sessions at an instant of the call, each was unregistered at some instant and is dead; it reports a kill exactly when there was a match, and never for the empty ticket |
| Daemon.Daemon.Match | internal/daemon/server.go:1632-1667 | collects exactly the registered sessions of the ticket |
| Daemon.Daemon.KillAll | internal/daemon/server.go:1030-1043 | one by one, with others running, every doomed session ends up dead |
| Daemon.Daemon.HandleShutdown | internal/daemon/server.go:1856-1875 | reports how many it drained; all of them are dead in the state before its last step, which raises the flag |
| Daemon.Daemon.CleanUp | internal/daemon/server.go:1022-1053 | once the flag is up, everything that was registered ends up dead |
| Daemon.Daemon.Drain | internal/daemon/server.go:1022-1036 | the registry is empty and a flagged cleanup is on record |
| Clients.KthCallSees | internal/daemon/server.go:1806-1842 | when all n active clients call PrepareExit once and nothing else happens, the k-th sees n - k active peers, so exactly the last sees none |
| Clients.NeverBothLast | internal/daemon/server.go:1806-1854 | whatever joins, leaves and cancels surround them, two clients registered before either call never both see no active peer |
| Clients.StaysActive | internal/daemon/server.go:1806-1854 | a client stays active in any trace until it calls or leaves |
| Clients.ActiveFromJoinOrCancel | internal/daemon/server.go:1806-1854 | a client that joins, or cancels its exit, is an active peer of everybody else until it calls or leaves |
| Clients.InactiveFromPrepareOrLeave | internal/daemon/server.go:1806-1854 | one that called is nobody's active peer until it cancels or joins anew; one that left is gone until it joins anew |
| Clients.ShutsDownIff | internal/daemon/server.go:1890-1916 | in any run a step begins a shutdown exactly when somebody asks for it, or when the last client leaves or the watcher looks and a daemon that is not persistent has neither client nor live session left |
| Clients.RunAddsUp | internal/daemon/server.go:1057-1103 | clients and sessions are those that came and have not gone, a shutdown is never taken back, and a persistent daemon ends only on request |
| Clients.LifecycleEnds | internal/daemon/server.go:687-717 | in default mode a state without clients and without shutdown has exactly one pending watcher, and its first poll without sessions initiates shutdown, unless a disconnect slipped past a leaving watcher |
| Clients.WatchedIffNoSlip | internal/daemon/server.go:687-717 | over whole runs: the daemon is watched in every state so far if and only if no disconnect slipped past a leaving watcher |
| Clients.SlippingLosesTheWatcher | internal/daemon/server.go:1890-1916 | that exception is exact: in every such state the watcher is lost while sessions live |
| Clients.SlippingIsReachable | internal/daemon/server.go:687-717 | a concrete run reaches such a state |
| Clients.Server.HandlePrepareExit | internal/daemon/server.go:1806-1842 | the loop over the table flags the caller and counts exactly the other clients that are TUIs and those that have not called |
| Clients.Server.HandleCancelExit | internal/daemon/server.go:1849-1854 | clears the caller's flag and nothing else, so it is an active peer of everybody again |
| Clients.Server.RegisterClient | internal/daemon/server.go:1057-1071 | the 16-bit id counter wraps; the lifecycle takes its connect step, except that a client given an id still in use replaces its owner and none is added |
| Clients.Server.Disconnect | internal/daemon/server.go:1076-1131 | removes the client; begins a shutdown exactly when the daemon is not persistent and has neither client nor live session left, and a watch exactly when it is left with sessions; the lifecycle's disconnect step |
| Clients.Server.HandleLastClientDisconnect | internal/daemon/server.go:1890-1916 | a persistent daemon stays as it is; otherwise live sessions are watched, by one watcher, and without any the shutdown begins |
| Clients.Server.DrainTick | internal/daemon/server.go:703-716 | one wakeup begins a shutdown exactly when neither client nor live session is left, and the watcher stays only while sessions live; the lifecycle's poll step |
| Clients.Server.DrainExit | internal/daemon/server.go:688-696 | the deferred end of the watcher clears the pending flag, as the lifecycle's own step |
| Clients.Server.HandleHello | internal/daemon/server.go:1327-1340 | names the client, counts all of them, and moves the lifecycle nowhere |
| Attach.StepKeepsInv | internal/daemon/session.go:387-499 | every attach, takeover, half of a detach and pane exit keeps the account of every attacher ever made |
| Attach.AttachInstalls | internal/daemon/session.go:387-457 | an attach that is let in gives its client a fresh attacher that is current and served, and touches nobody but the displaced one; one that is refused changes nothing |
| Attach.OneOwner | internal/daemon/session.go:387-499 | in every reachable state Unsubscribe is set for exactly the current attacher, no subscription was cancelled twice, and with no detach between its halves the pane serves the current attacher alone and all others have been told to leave |
| Attach.OwnerStays | internal/daemon/session.go:472-499 | an attacher keeps slot, subscription and record through everything but its own detach and a takeover |
| Attach.DisplacedDetachIsVoid | internal/daemon/session.go:395-423 | a takeover shuts the displaced attacher out at once, and both halves of its own late detach then change nothing |
| Attach.LateDetachIsVoid | internal/daemon/session.go:472-499 | in every reachable state the detach of an attacher that is neither current nor between the halves of a detach changes nothing |
| Attach.AttachSession.AttemptAttach | internal/daemon/session.go:387-457 | refuses when occupied without takeover, otherwise installs a fresh attacher of this client; the snapshot has the old size, and a zero dimension prevents the resize |
| Attach.AttachSession.DetachUnderLock | internal/daemon/session.go:477-488 | clears the slot only for its own attacher and takes the cancellation if it is still there |
| Attach.AttachSession.DetachAfterUnlock | internal/daemon/session.go:490-499 | closes the detach channel once and cancels what was taken, after any other steps |
| Attach.AttachSession.SetViewing | internal/daemon/session.go:171-186 | reports a change exactly when the viewer set changed, and its new size |
| PaneView.StepKeepsInv | internal/daemonclient/paneview.go:1033-1060 | every step of attaches, detaches, loop exits and polls keeps the invariant of the view |
| PaneView.NoPollParks | internal/daemonclient/paneview.go:1917-1953 | in every reachable state the detach channel is open, none was closed twice, attached means a connection is installed, and every armed poll holds a closed channel or the attached pane's own |
| PaneView.DetachWakesAll | internal/daemonclient/paneview.go:1058-1059 | after a detach every armed poll holds a closed channel |
| PaneView.NoConnLeaks | internal/daemonclient/paneview.go:1185-1207 | when all read loops have returned and closed theirs, no connection is open |
| PaneView.ConnLife | internal/daemonclient/paneview.go:1185-1207 | the connection an attach installs has its loop running exactly until that exits, and is open exactly until it is closed |
| PaneView.LetGoMeansClose | internal/daemonclient/paneview.go:1033-1060 | a detach, and a loop that exits, owe their connection a close until it comes |
| PaneView.RunAddsUp | internal/daemonclient/paneview.go:1917-1953 | the armed polls are those armed while attached, each on the channel of that moment, and not yet over |
| PaneView.StaleLoopsAreHarmless | internal/daemonclient/paneview.go:1185-1197 | an attach survives the exits of all older loops with its connection open, its loop running and its channel unchanged |
| PaneView.PaneView.FinishAttach | internal/daemonclient/paneview.go:892-907 | installs the connection; in a reachable state the detach channel is never one to replace |
| PaneView.PaneView.DetachUnderLock | internal/daemonclient/paneview.go:1033-1060 | without a connection nothing happens; otherwise the old channel is closed and a fresh one swapped in |
| PaneView.PaneView.HandleAttachExit | internal/daemonclient/paneview.go:1185-1207 | lets go exactly when the connection is still its own; a replaced loop leaves connection, state and channel alone |
| PaneView.PaneView.ReadNextMsg | internal/daemonclient/paneview.go:1917-1953 | arms a poll only while attached, on the current channel |
| PaneView.PaneView.BeginAttach | internal/daemonclient/paneview.go:757-775 | an attached pane or one without session id goes no further |
| PaneView.PaneView.CloseOwn | internal/daemonclient/paneview.go:1205-1207 | the close after the unlock is a step of its own and never hits the installed connection |
| Render.StepKeepsInv | internal/daemonclient/paneview.go:1984-1996 | every step keeps the account of outstanding signals, except a drop with the flag set and no other signal outstanding |
| Render.NothingIsLost | internal/daemonclient/paneview.go:1878-1888 | unless such a drop happened, output the last View did not show implies a signal queued, or being consumed with its View to come, or about to be sent; bursts add at most one outstanding signal |
| Render.OutputNeverFillsTheQueue | internal/daemonclient/paneview.go:1959-1975 | no signal is dropped at all while other messages and left-over signals stay below the capacity of 64 |
| Render.SilencedIffMuted | internal/daemonclient/paneview.go:1959-1989 | the flag is set for nobody exactly when such a drop happened before |
| Render.SilenceLasts | internal/daemonclient/paneview.go:1984-1989 | once a drop left the flag set with no signal outstanding, no output of this attach is ever signalled again |
| Render.FullQueueSilences | internal/daemonclient/paneview.go:1959-1975 | such a state follows from a queue full of other messages |
| Render.PaneView.SwapPending | internal/daemonclient/paneview.go:1984-1989 | wins exactly when it is the one to emit |
| Render.PaneView.EmitOutput | internal/daemonclient/paneview.go:1959-1975 | a full queue drops the signal, otherwise it is queued last |
| Render.PaneView.HandleMsg | internal/daemonclient/paneview.go:1880-1888 | clears the flag for an output signal only, before the View that follows |
| Render.PaneView.Show | internal/daemonclient/paneview.go:1715-1721 | cached or not, the picture reflects everything applied |
| Decimal.NumsOfCsv | internal/daemon/redraw.go:274-290 | a parameter list read back gives the numbers that were written |
| Glyphs.SameStyle | internal/daemon/redraw.go:259-267 | the field-by-field comparison is equality of styles |
| Glyphs.ColorText | internal/terminal/glyph.go:157-209 | the text of a colour is the numeral list of its SGR parameters |
| Glyphs.StyleText | internal/terminal/glyph.go:105-134 | the joined parts of a style are one CSI sequence of its SGR parameters, or nothing |
| StyleReplay.ReadColor | internal/terminal/glyph.go:157-209 | a terminal that reads an encoded colour sets it, whatever parameters follow |
| StyleReplay.FeedStyle | internal/terminal/glyph.go:105-134 | a plain pen that reads the encoding of a style takes on that style as reread |
| StyleReplay.RereadIsIdentityIff | internal/terminal/glyph.go:157-209 | a colour is reread as itself exactly for basic colours below 16, indexed ones and opaque 8-bit RGB |
| StyleReplay.StyleSurvivesIff | internal/terminal/glyph.go:105-209 | a style survives encoding and replay exactly when both its colours do |
| Redraw.Itoa | internal/daemon/redraw.go:274-290 | filling the 11-byte buffer from the right yields the decimal numeral, and 0 for what is not positive |
| Redraw.WriteGlyphRow | internal/daemon/redraw.go:154-254 | the batching loop appends the specified row text, whatever was written before |
| Redraw.SerializeScrollback | internal/daemon/redraw.go:126-149 | the row loop yields the specified scrollback text |
| Redraw.SerializeRedraw | internal/daemon/redraw.go:35-114 | the serializer yields the specified redraw text, and nothing without an emulator |
| Redraw.BuildSnapshot | internal/daemon/session.go:524-539 | history text first, then the redraw text |
| RowReplay.PendingPaints | internal/daemon/redraw.go:207-254 | after n cells the unterminated text has painted exactly their columns |
| RowReplay.RowPaints | internal/daemon/redraw.go:207-254 | a row's bytes paint its cells in order, leave the pen plain and nothing else changed, and never wrap even when the row fills the line |
| ScrollbackReplay.RowsScroll | internal/daemon/redraw.go:126-187 | k rows fed to an h-row screen push exactly the first max(0, k - (h - 1)) into the history, in order, with styles, without wrapping |
| ScreenReplay.RedrawReplay | internal/daemon/redraw.go:35-114 | for every well-formed screen, replay on any terminal of its size and in any state between sequences rebuilds grid, styles, cursor, title, visibility, mouse and alternate-screen flags |
| SnapshotReplay.SnapshotReplayed | internal/daemon/session.go:524-539 | a fresh terminal that replays a snapshot shows the screen and holds exactly the first max(0, k - (h - 1)) history rows |
| SnapshotReplay.HistoryCompleteIff | internal/daemon/session.go:508-512 | the whole history arrives exactly when there is none or the screen has one row |
| SnapshotReplay.LooksSameIff | internal/daemon/redraw.go:207-254 | every cell looks as before exactly when the screen's colours all survive |
| Wire.ReadIffEncoded | internal/daemon/protocol.go:86-135 | a read returns a frame and a rest exactly when the stream is that frame's encoding followed by the rest |
| Wire.FrameLayout | internal/daemon/protocol.go:86-103 | on the wire a frame is the length of what follows, high byte first, then the type, then the payload |
| Wire.RoundTrip | internal/daemon/protocol.go:86-135 | any list of frames reads back as itself and then end of file |
| Wire.PrefixReadsWholeFrames | internal/daemon/protocol.go:110-135 | any prefix yields its whole frames and then an error that is a plain EOF only at a frame boundary or right after a bare header |
| Wire.WholeIsMaximal | internal/daemon/protocol.go:110-135 | the frames counted as whole are all that fit in the prefix |
| Wire.DeclaredLength | internal/daemon/protocol.go:122-129 | lengths of 0 and above the maximum are refused, with nothing of the payload consumed, and only those for that reason |
| Wire.ResizeInverse | internal/daemon/protocol.go:190-208 | decoding accepts exactly the 6-byte encodings and inverts them |
| Wire.ResizeLayout | internal/daemon/protocol.go:190-208 | columns, rows and client id in this order, high bytes first |
| Transfer.WriteFrame | internal/daemon/protocol.go:86-103 | writes the encoding, or refuses an oversized frame untouched, or leaves the prefix the writer accepted |
| Transfer.ReadFrame | internal/daemon/protocol.go:110-135 | is the specified read of one frame, with its errors and what stays unread |
| Transfer.WriteSnapshotChunks | internal/daemon/attach.go:173-191 | puts exactly the chunks' encodings on the connection, or the prefix it accepted |
| Transfer.ChunksCarry | internal/daemon/attach.go:173-191 | the chunks hold the data in order; none is empty and all but the last are of exactly 64 KiB |
| Transfer.ReceivesExactly | internal/daemonclient/paneview.go:848-886 | the counting loop applies precisely the announced bytes in order, without overshoot, empty frames in between or not, and leaves all that follows unread |
| Transfer.ReceiveSnapshot | internal/daemonclient/paneview.go:848-886 | the answer is explained by the frames read: complete only with at least the announced bytes, otherwise the error of the failed read or the foreign type, with exactly the payloads before it applied and the connection closed |
| Transfer.ExplainedIsReceived | internal/daemonclient/paneview.go:848-886 | such an explanation leaves no choice: answer and unread rest are those of the specified receiver |
| Transfer.CutShort | internal/daemonclient/paneview.go:853-865 | a snapshot stream cut anywhere is never taken for a whole one: exactly the whole frames are applied, and the error is that of the broken read |
| Transfer.ForeignFrame | internal/daemonclient/paneview.go:866-873 | a frame of another type before the end is an error, with exactly what came before it applied |
| Transfer.TransferSnapshot | internal/daemon/attach.go:97-100 | sender and receiver together: a snapshot that the connection takes arrives whole with the live frames unread, and one that it does not take fails with exactly its whole frames applied |
| Rpc.StepKeepsInv | internal/daemonclient/client.go:370-457 | calls, replies, pushes, cancellations and disconnects keep the account of requests and replies in flight |
| Rpc.CallIsPaired | internal/daemonclient/client.go:370-457 | a call that begins with no reply unclaimed gets its own reply or none, whatever became of the calls before it |
| Rpc.RepliesArePaired | internal/daemonclient/client.go:370-457 | the k-th call gets the k-th reply or none, as long as no earlier call went without its own |
| Rpc.MispairIff | internal/daemonclient/client.go:306-457 | in a reachable state a new call can get another call's reply if and only if the link is open and an abandoned call's reply is unclaimed |
| Rpc.BufferedReplyWins | internal/daemonclient/client.go:430-456 | a reply in the channel of a written call is what it returns, whichever case of the select fires and whatever happens until then |
| Rpc.CallsEnd | internal/daemonclient/client.go:420-457 | what a call returns: the reply in its channel, the disconnect's error if that came first, and without either the error of the case that ended it |
| Rpc.LateReplyReachesNextCall | internal/daemonclient/client.go:370-457 | a concrete run in which the next call gets the abandoned call's reply |
| Client.Client.LoadPending | internal/daemonclient/client.go:306-314 | the read loop takes the channel pending at that moment, which may be none |
| Client.Client.DeliverResp | internal/daemonclient/client.go:306-329 | sends into the channel loaded before, which may be an older call's, and is the pairing model's step |
| Client.Client.SignalDisconnect | internal/daemonclient/client.go:284-304 | acts once, wakes the waiting call, never overwrites a buffered reply |
| Client.Client.LookAgain | internal/daemonclient/client.go:433-456 | cancellation and disconnect look once more: a reply that arrived meanwhile is returned, otherwise the case's own error; one step of the pairing model |
| Client.Client.Await | internal/daemonclient/client.go:430-456 | with others running between a case firing and its second look, a reply in the channel at the start is returned in any case |
| Migration.EvolvesTransitive | internal/project/migration.go:97-243 | what any run may do to the files composes over runs: the directory is never partly filled, the legacy file leaves its name only for one that keeps its bytes |
| Migration.CoversIffDistinct | internal/project/migration.go:122-243 | a completely written directory has a copy at least as new of every ticket exactly when no two tickets share a file name |
| Migration.WrittenHolds | internal/project/migration.go:165-205 | every file written reads back as a stored ticket, unchanged but for a missing project id filled in from the store, and with distinct file names every ticket is there |
| Migration.HoldsAllIffDistinct | internal/project/migration.go:122-243 | a completely written directory holds every ticket as it was stored exactly when no two tickets share a file name |
| Migration.SameFilenameIff | internal/project/ticket_md.go:340-352 | with ids of at least eight characters two tickets share a file name exactly when their slugs, "untitled" for an empty one, and the first eight characters of their ids agree |
| Migration.WrittenMore | internal/project/migration.go:165-205 | writing one more ticket file extends what the directory holds by that ticket |
| MigrationRun.IsStaleSnapshot | internal/project/migration.go:306-350 | a positive verdict means a copy at least as new of every ticket is on disk; a clear case is always found |
| MigrationRun.WriteTicket | internal/project/migration.go:165-277 | on success the file is there and passed its validation; without faults it fails only for a ticket that cannot round-trip |
| MigrationRun.RunMigration | internal/project/migration.go:122-243 | whatever fails or crashes, the files only evolve safely; a run that reports tickets has put a directory in place that holds nothing but stored tickets, and with distinct names all of them, unchanged but for a missing project id; without faults the run ends as specified |
| MigrationRun.MigrateProject | internal/project/migration.go:97-118 | an orphaned workspace is removed first; the same guarantees, safe under every fault |
| MigrationRun.FinishedIsStale | internal/project/migration.go:306-350 | a directory that a migration finished makes the legacy store recognisably stale |
| MigrationRun.CrashStates | internal/project/migration.go:97-243 | any crash leaves a state that is recoverable or settled |
| MigrationRun.RunSettles | internal/project/migration.go:56-80 | an uninterrupted run from a recoverable state reaches the complete phase with every ticket as it was stored in the directory, and nothing else |
| MigrationRun.MigrationKeepsAllIff | internal/project/migration.go:122-243 | an uninterrupted migration of valid tickets into a bare directory reports success and retires the legacy file, and keeps every ticket, as it was stored, if and only if no names collide |
| MigrationRun.MigrateColliding | internal/project/migration.go:97-243 | a run in which nothing fails and a ticket is lost |
| MigrationRun.CrashAndRecover | internal/project/migration.go:97-243 | over any number of runs cut short anywhere no ticket is lost, and one uninterrupted run completes the migration with every ticket as it was stored but for a missing project id |
| Text.TrimOfPadded | internal/project/ticket_md.go:254-256 | trimming removes exactly the padding around a trimmed text |
| TicketMd.SplitFindsYamlIff | internal/project/ticket_md.go:242-256 | for newline-terminated YAML the parser finds exactly that text if and only if it holds no fence line, with any fence lines in the body |
| TicketMd.SplitIff | internal/project/ticket_md.go:242-256 | the parts are what stands between the opening fence and the first closing one, and what follows; the error says which fence is missing |
| TicketMd.FileTextIs | internal/project/ticket_md.go:227-237 | the file is the fenced YAML, an empty line and the description with its final newlines cut to one |
| TicketMd.RoundTrip | internal/project/ticket_md.go:213-269 | a ticket's file reads back as the ticket with outer newlines trimmed, nil collections emptied and gaps backfilled; it is refused exactly when a field was not acceptable |
| TicketMd.SecondRoundTrip | internal/project/ticket_md.go:213-331 | a second round trip changes nothing, whenever it happens |
| TicketMd.UnchangedIff | internal/project/ticket_md.go:213-331 | which tickets come back unchanged, exactly |
| TicketMd.Cell.ValidateFrontmatter | internal/project/ticket_md.go:279-331 | says for each error the check it stands for, in their order; keeps only the backfills made before it, and fills every gap on success |
| TicketMd.MarshalTicket | internal/project/ticket_md.go:213-238 | writes the specified file text, or reports a nil ticket or a YAML failure |
| TicketMd.UnmarshalTicket | internal/project/ticket_md.go:242-269 | is the specified parser; the error is the missing fence, the YAML, or the field at fault |
| Template.ExpandLine | internal/agent/brief.go:183-197 | no `$` reference of a description reaches past the end of its last line |
| Template.References | internal/agent/brief.go:183-197 | what a reference expands to: `$$` to a dollar sign, the name 0 to the match, any other name to nothing, with braces or without |
| Template.BareDollar | internal/agent/brief.go:183-197 | a dollar sign that begins no reference stays |
| Template.ExpandKeeps | internal/agent/brief.go:183-197 | expansion never removes a marker from a description |
| Brief.ExpandBlock | internal/agent/brief.go:183-197 | expanding the block as a template expands the description alone |
| Brief.FirstMatchOfBlock | internal/agent/brief.go:22-24 | after text without start marker, a block whose text has no end marker is matched from end to end |
| BriefLaws.UnchangedIff | internal/agent/brief.go:183-197 | an upsert leaves a text alone if and only if it has a match and every match is the block that would replace it |
| BriefLaws.TwiceIsOnceIff | internal/agent/brief.go:183-197 | upserting twice equals upserting once exactly under Settles, for every text and description |
| BriefLaws.PlainDescriptionSettlesIff | internal/agent/brief.go:183-197 | without `$` and end marker that means no start marker is left open |
| BriefLaws.LaterOverridesEarlier | internal/agent/brief.go:183-197 | a later description fully overrides an earlier one |
| BriefLaws.UpsertKeepsOutside | internal/agent/brief.go:183-197 | every text outside the matches is kept, and appending only ends the last line |
| BriefLaws.SeparatorLaw | internal/agent/brief.go:188-196 | an appended block begins the file or follows an empty line, with no more newlines added than that takes |
| BriefLaws.InitialSettlesIff | internal/agent/brief.go:161-177 | when an upsert of the same description leaves a new brief alone, exactly, for every title |
| BriefLaws.OrdinaryTitleSettlesIff | internal/agent/brief.go:161-177 | with no start marker in the heading that depends on the description alone: no end marker, and nothing to expand |
| BriefLaws.PriceIsLost | internal/agent/brief.go:183-197 | a concrete description that does not settle |
| BriefMerge.Worktree.PreviewBriefMerge | internal/agent/brief.go:46-79 | a blank description changes nothing; otherwise a missing file gets heading and block, an existing one has every match replaced or the block appended, for the trimmed description; a change is announced exactly when the file would differ, and read errors and missing slugs change nothing |
| BriefMerge.Worktree.MergeTicketBrief | internal/agent/brief.go:109-155 | leaves the file alone for a blank description; otherwise writes exactly the content just described, or, whichever step fails, leaves the brief as it was and no temporary file |
| BriefMerge.SlugOfBranch | internal/agent/brief.go:26-32 | the slug is the branch name without task/ in front |
| BriefMerge.SecondMergeIdleIff | internal/agent/brief.go:109-155 | a second merge of the same ticket finds nothing to change exactly when its description settles |
| Settings.AddsEachMissingOnceInOrder | internal/agent/claude_settings.go:140-160 | a merge adds exactly the missing source strings, each once, in order of first occurrence |
| Settings.MergeKeeps | internal/agent/claude_settings.go:124-169 | each list stays as a prefix, every other key as it was |
| Settings.MergeTwice | internal/agent/claude_settings.go:124-169 | merging the same source again changes nothing and adds nothing |
| Settings.MergeSettingsLocal | internal/agent/claude_settings.go:124-169 | the loops over buckets and entries compute the specified merge in place, nil arguments included |
| Settings.BashArgIff | internal/agent/claude_settings.go:365-373 | an entry has the Bash argument a exactly when it is Bash(a), and none exactly when it does not begin and end so |
| Settings.KeptInOrder | internal/agent/claude_settings.go:455-492 | pruning is a stable filter: what stays stays in order, and as many entries go as there are records |
| Settings.PrunedConcat | internal/agent/claude_settings.go:468-484 | the records come in the order of their entries |
| Settings.PruneKeeps | internal/agent/claude_settings.go:455-492 | ask, deny and every other key are left alone |
| Settings.PruneTwice | internal/agent/claude_settings.go:455-492 | a second pruning finds nothing |
| Settings.ReviewAndPrune | internal/agent/claude_settings.go:455-492 | every entry stays but those that are Bash(a) with a verdict against a, and exactly these are on record with that verdict as the reason; the loop computes the specified filter in place |
| Settings.PromoteThenPruneIsAFixpoint | internal/agent/claude_settings.go:124-492 | promoting the same worktree again and pruning again leaves the whole document as it was |

## Left out

- Sessions.NoOrphanSurvivesShutdown: speaks of shutdowns begun by initiateShutdown; the accept-error exit is the subject of Orphans.OrphanIffHazard.
- Orphans.OrphanIffHazard: that no handler is left when the drain begins is a premise about the steps after it, taken from shutdownDrain; the last handler's own shutdown request is one of the steps before it.
- Clients.LifecycleEnds: no wrapped id that is still in use is handed out, and no connection is refused at capacity, a path that skips the last-client check.
- Clients.Server.Disconnect: unregistering, the count of sessions and the look at drainPending are one step, as are the watcher's readings of the session and client counts; scrubbing the viewers is left out.
- MigrationRun.CrashAndRecover: assumes valid tickets, map keys equal to ticket ids, distinct file names and no other writer; what happens without distinct names is MigrationKeepsAllIff.
- MigrationRun.WriteTicket: whether a ticket can be written and passes its read-back validation are two flags of the ticket, and its timestamp is taken to survive the file unchanged.
- MigrationRun.RunMigration: legacy files renamed aside are kept apart, although two such renames within one second share a name.
- Rpc.RepliesArePaired: a daemon that answers each control request once and in order is part of the model, not proved of dispatch.
- Daemon.Daemon.HandleKill: the kill that the handler starts is part of it, so it is over after the reply; the same holds of HandleTicketDone.
- BriefLaws.LaterOverridesEarlier: one direction only; two descriptions that both fail to settle can still cancel out.
- TicketMd.RoundTrip: what the YAML library does is a premise about one frontmatter (Carries), not a model of YAML.
- Render.NothingIsLost: speaks of one attach; Close and several read loops on one pane are outside it.
- Attach.AttachSession.AttemptAttach: snapshot and Subscribe are one step, so nothing is claimed about output between them.
- Transfer.TransferSnapshot: both ends run one after the other; the interleaving of reads and writes is not modelled, and a failed receive tears no emulator down.
- Text is a sequence of characters, not of UTF-8 bytes; slices of ids and titles therefore count characters.
- CellToGlyph and the emulator: a screen is given as glyphs, and the reference terminal covers only what the serializer emits; overwriting half a wide glyph and the style of continuation cells are left out.
- The source emulator's pending-wrap flag is not part of a screen, so the replayed terminal has none.
- Processes, pseudo-terminals and signals: a session is running, exited or killed, and kills succeed.
- Time: deadlines, tickers and timeouts are steps that may happen at any moment; when a displaced read loop stops is not claimed.
- The client's emulator and its teardown, Peek, keys, mouse, selection and viewport are not part of PaneView.
- Session events: delivery drops on full buffers and is not modelled; nor are viewing broadcasts, wedge detection and status scraping.
- JSON, regular expressions and Slugify: given as data, as a search for the literal markers, and as a field of the ticket.
- pruneVerdict's tables are one function parameter; writing settings files, snapshots of them and the prune log are left out.
- Seeding of permissions, backup and restore, hooks, git and launchd commands, the command line and the user interface: easier than the above or plain input and output.
