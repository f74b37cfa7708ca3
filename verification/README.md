# A model of the web terminal engine

One terminal screen, driven by a program behind a PTY, is shown in any number of
browsers over WebSockets. This project models the parts of the engine that keep state over
unbounded runs and proves what they are meant to keep.

**Output, server to client.** `Delivery` is a state machine whose steps are the sections the
server runs under its lock (attach, reset, build, resume snapshot) and the socket writes that
happen later (dispatch of a frame, the batch of a resume). `FlushBuilder` is the frame builder
with its one diff cache for all clients, as a class proved against a value specification;
`Handler` is the server object whose methods are the steps of the machine; `Scrollback` is the
history ring. `ClientView` says what a client makes of the messages. `DeliveryPictures`,
`DeliveryOrder` and `DeliveryHistory` prove what every run keeps: the diff stream shows what a
full repaint would, nothing stale follows anything newer, and no history line is missed, with
the exceptions the code has. `DeliverySignals` follows what rides a frame once: an erase of
history, a clipboard text, a bell, and the repaints that are owed.

**Input, client to server.** `Outbox` is the client's ledger and its trimming loop;
`InputProtocol` the link with drops, resumes, retransmission and reclaimed ledgers, bytes named
by their position in what the user typed; `InputHazards` the moments the protocol does not
fence, each with its exact consequence. `Framing` is the negotiation that tells controls from
input bytes. `Registry` is the server's table of clients and ledgers.

**The terminal.** `VtTable` builds the transition table as the program does and proves it equal
to a direct definition; `Parser` is the byte machine, `ByteFeed` the same in place over the
built table and `ParamSlots`, the flat parameter arrays that `CsiParams` proves to be a nested
split. `VtCells` and `VtScreen` give every screen operation cell by cell as a value, `VtStream`
what each parser event does, `VtSequences` what whole control sequences do. `VtRows`, `VtStore`
and `VtPrinter` are the same operations over row arrays that are moved by reference, shifted in
place and put aside, as the program stores them; `VtControls` and `VtDispatch` add the rest of
the controls and the choice among them, and `VtTerminal` joins parser and stored screen into the
terminal as it is kept. `VtInvariant`, `VtAlternate` and `VtAutowrap` prove what any byte stream
keeps. `VtLaws`, `VtEditLaws`, `VtMotionLaws` and `VtStateLaws` say what the controls mean without
the functions that do them: what each cell holds after printing, erasing, editing and scrolling,
where the cursor ends, and what is read back of anything set or saved; `VtStrings` says what the
parser delivers for each kind of thing a program sends. `Sgr` is rendition, its parser and its
printer, and `SgrLaws` what its parameters mean to one another.

**Rows on the wire.** `Wire` turns cells into runs, `WireChains` finds the rows that make one
logical line, `WireLinks` maps link matches to columns and stamps them, `PrintedLinks` joins
that to printing, and `WireCodec` is the binary frames with a decoder written from their layout.
`RowRender` renders a row from cells to bytes and proves that whatever it renders fits a page;
`WireReader` is the reader of a run, and proves that it gets glyph, link and pen back.

**History pages, pacing, status.** `Paging`, `Pacing` and `PageBudget` are what a page request
returns, how often one may be made and how large it may be. `Sessions` and `StatusStream` are
the session set with its order and the change stream over it.

Values are unbounded integers unless the source saturates or truncates, and then that is
written out. Time is a real number. Where the program keeps mutable state there is a class whose
methods state the whole new state through a value function; the theorems are about those
functions.

## What the proofs found

- A resume commits pending lines straight into history (terminal/terminal.go:2501-2505), so
  another attached client that is owed them never receives them as scroll frames.
  `DeliveryHistory.HistoryDelivered` is the exact condition; `SecondResumeLeavesHole` a run.
- The flag that tells a client of an erase rides a screen payload, and a resume that overtakes
  its frame strips the frame to its durable part (terminal/terminal.go:1788-1893): the client
  keeps lines the server has erased. `DeliverySignals.ErasedLinesAreGone` holds for every run in
  which no resume of the socket's own overtakes a flagged frame; `EraseReachesExactly` is the
  condition of a single write and `ResumeKeepsErasedLine` a run.
- Input accepted before a session's first connection is reported lost and dropped: the resume
  claims sent bytes for a ledger that does not exist yet
  (terminal/client_registry.go:163-179, terminal/terminal.go:2456-2466).
- A tab outside the managed list keeps its resume key over a page reload while its counters
  start again from 0, and the server's ledger does not (web/src/connection.ts:160-196, 358-368,
  748-778). The next resume's acknowledgement then trims bytes that were never received:
  `InputHazards.ReloadLosesInput` gives the run. `ReloadExactly`: input stays exactly-once after a
  reload if and only if the server had counted nothing.
- When the ledger table is full and every ledger is held by a socket, the ledger evicted is the
  one just created, not the longest unseen one, because its socket is not attached to it until
  after the eviction (terminal/client_registry.go:163-179, 229-255). The comment there expects
  the oldest overall to go.
- Leaving the alternate screen restores the saved scroll top unclamped
  (vt/screen.go:903-923); `VtInvariant.ExitAltKeepsExactly` and `ResizeKeepsExactly` give the
  exact condition, `DeepShrinkBreaks` an instance.
- An empty history reply to a window that passes the tail raises the client's floor above lines
  not yet committed (web/src/connection.ts:1137-1170). `Paging.FloorRaiseExactly`: a request is
  safe if and only if its window stays within the tail or part of it is retained;
  `FloorPassesTheTail` is an instance.
- A resume that bounds its replay may commit pending lines and not replay them; by
  `DeliveryHistory.NoHistoryHole`, with one client attached those, and only those, are left to be
  fetched.
- Both underline flags can be set at once (21 and then 4), and that style alone does not print
  back to itself.
- The three-timeout bound of history requests holds for pages up to 1007 lines and fails at
  1008; pages of 1000 are inside it. Half a second of delay variation is the exact limit of the
  pacing theorem.

## Model

| member | source | states |
|---|---|---|
| `DeliveryPictures.DiffStreamRefinesRepaint` | terminal/terminal.go:1486-1559 | after any interleaving of output, attach, reset, build, dispatch, detach, resume and resume batch, a client that has completed a picture shows that picture row for row, with its base, alternate flag, cursor, modes and title: the last matching frame written to it or its own last resume, although frames carry only rows that differ from one cache shared by all clients |
| `DeliveryPictures.QuiescentClientsAgree` | terminal/flush_builder.go:65-144 | a client with nothing in flight shows exactly the builder's cached picture whenever anything was built since the last reset, so any two such clients agree |
| `DeliveryPictures.DispatchCompletesPicture` | terminal/terminal.go:1699-1779 | writing a frame whose generation still matches leaves the client showing the screen the frame was built from |
| `ClientView.DiffIsEnough` | terminal/flush_builder.go:65-191 | a built frame, with extra rows, a clipboard or the erase flag riding it, takes any client that agrees with the cache, or any client at all when the cache is blank, to the whole picture |
| `ClientView.RowArrives` | terminal/flush_builder.go:164-191 | a window row is either sent or already held under its absolute index, even when the frame erases older history |
| `ClientView.BatchShows` | terminal/terminal.go:2456-2591 | the payloads of a resume snapshot leave any client, whatever it held, showing that snapshot, in either order of window and replay |
| `ClientView.DurableKeepsPicture` | terminal/terminal.go:1788-1795 | a frame cut down to its durable payloads leaves the picture a newer snapshot put up untouched |
| `ClientView.ApplyChunks` | terminal/terminal.go:1699-1779 | history sent in chunks is stored line by line at its own absolute indices and touches nothing else |
| `ClientView.ChunksFit` | terminal/terminal.go:1699-1779 | no chunk is empty or longer than the limit, so every line count fits its field |
| `DeliveryOrder.NoStaleAfterNewer` | terminal/terminal.go:1855-1893 | on any one socket the state payloads carry non-decreasing snapshot times, however resumes interleave with frames already built |
| `DeliveryHistory.HistoryDelivered` | terminal/terminal.go:2485-2538 | with nothing in flight to a socket, an owed committed line was written to it with its committed content if and only if no other socket's resume drained it and no resume of its own committed it without replaying it |
| `DeliveryHistory.NoHistoryHole` | terminal/terminal.go:1788-1893 | with one attached client every line from the first owed one to the tail was written to it, frames stripped by a resume included, but for exactly those its own resumes committed and did not replay |
| `DeliveryHistory.OwedFromReplay` | terminal/terminal.go:2398-2413 | a resume takes back nothing owed: from its first replayed line on everything is owed and nothing missed, and below it only the lines it commits itself are added to those skipped |
| `DeliveryHistory.SecondResumeLeavesHole` | terminal/terminal.go:2501-2505 | a run in which a second client's resume commits a pending line that the first client is owed and is never written |
| `DeliveryHistory.AloneStealsNothing` | terminal/terminal.go:2501-2505 | while at most one socket is attached no resume takes a line from another |
| `DeliverySignals.ErasedLinesAreGone` | terminal/terminal.go:1533-1551 | over every run in which no resume of its own overtakes a flagged frame, a socket with no erase pending and no flagged frame on its way to it has a client that holds no line below the last erase |
| `DeliverySignals.EraseReachesExactly` | terminal/terminal.go:1788-1893 | written to a socket, a flagged frame leaves its client without the erased lines if and only if the frame still matches the socket's resume generation or the client held none |
| `DeliverySignals.ResumeKeepsErasedLine` | terminal/terminal.go:1788-1893 | a run in which a resume overtakes the frame that carries the flag, and the client keeps line 0 after its erase |
| `DeliverySignals.EraseRides` | terminal/terminal.go:1533-1543 | the erase pending at a build rides the frame it makes, to every socket and on a screen payload, and stays pending exactly as long as no frame is made |
| `DeliverySignals.EraseIsPending` | terminal/terminal.go:1533-1543 | an erase leaves nothing retained and is pending from then on |
| `DeliverySignals.FlaggedFrameErases` | terminal/terminal.go:1699-1779 | a frame with the flag leaves nothing below its first line, whatever the client held |
| `DeliverySignals.ClipboardArrives` | terminal/terminal.go:1544-1551 | a clipboard text set while a socket is attached is written to it, whatever resumes overtake its frame, unless the socket detaches first or a newer text replaces it while it waits |
| `DeliverySignals.ClipTakenOnce` | terminal/terminal.go:1546-1554 | a build takes the text that waits, sends it with whatever frame it makes, making one if need be, and sends none that did not wait |
| `DeliverySignals.BellRidesOnce` | terminal/flush_builder.go:65-144 | a bell is taken by the first unheld build and no other, and rides a screen payload |
| `DeliverySignals.RepaintStaysOwed` | terminal/terminal.go:1499-1529 | a repaint once owed stays owed through every step, attach, detach and resume included, until the one build that makes a frame, and that frame carries every row |
| `DeliverySignals.RepaintsAreOwed` | terminal/terminal.go:1499-1506 | a palette change, a resize, a new socket and a resume each owe a repaint |
| `DeliverySignals.CoalescedBuildPaintsAll` | terminal/terminal.go:1517-1529 | a build at the end of a coalesced interval carries every row |
| `DeliverySignals.MovedCursorSendsBothRows` | terminal/flush_builder.go:248-258 | a frame made after the cursor moved carries the row it left and the row it entered |
| `DeliverySignals.LinesReachHistory` | terminal/terminal.go:1486-1559 | no line is lost or made between screen and ring: at every build, sent, held or silent, with anybody attached or nobody, and at every resume, history and what is still drained come to the same lines in the same order |
| `DeliverySignals.AlternateLinesAreNot` | terminal/flush_builder.go:65-144 | what scrolls off the alternate screen, or around a switch between the two, is never history |
| `FlushBuilder.BuildRecordsPicture` | terminal/flush_builder.go:65-144 | after an unheld build the cache is the picture just built, whether or not anything was sent |
| `FlushBuilder.SilentBuild` | terminal/flush_builder.go:157-159 | a build that sends nothing built the picture the cache already held |
| `FlushBuilder.NothingChanged` | terminal/flush_builder.go:164-191 | an empty diff against a window of the same height means base and rows are those cached |
| `FlushBuilder.FlushFrameBuilder.Reset` | terminal/flush_builder.go:45-56 | every cached field is forgotten, as the value `Reset` says |
| `FlushBuilder.FlushFrameBuilder.DiffWindow` | terminal/flush_builder.go:164-175 | exactly the rows whose absolute index holds something else, in order; the cache becomes this window |
| `FlushBuilder.FlushFrameBuilder.TrackCursor` | terminal/flush_builder.go:248-258 | whether the cursor moved, and its old and new rows among the changed ones |
| `FlushBuilder.FlushFrameBuilder.BuildNext` | terminal/flush_builder.go:65-144 | frame, cache and screen are those of the build whose properties the lemmas state: held output, the alternate-screen transition, drained lines, diff, cursor, modes, title and bell |
| `Handler.TerminalHandler.BuildFrame` | terminal/terminal.go:1486-1559 | the locked section of a flush pass is the build step of the state machine: a hold leaves everything as it is, sized or not; otherwise repaints folded in, lines committed, one-shot signals riding the frame, generations captured |
| `Handler.TerminalHandler.TakeResumeSnapshot` | terminal/terminal.go:2471-2538 | the locked section of a resume is the snapshot step: pending lines committed, generation raised, cache reset, replay and screen captured |
| `Handler.TerminalHandler.WriteClientPayloads` | terminal/terminal.go:1855-1893 | one socket is written the whole frame if its generation matches, else the durable part, and no other socket is touched |
| `Handler.TerminalHandler.WriteResumeBatch` | terminal/terminal.go:2538-2606 | the batch is written whole and the socket's picture becomes the snapshot |
| `Handler.TerminalHandler.RetainSuspendedScrollback` | terminal/terminal.go:1468-1477 | with nobody attached drained lines still reach history |
| `Handler.ScrollPayloads` | terminal/terminal.go:1699-1779 | the chunking loop sends consecutive runs of lines under their own first index |
| `Scrollback.ScrollbackRing.Append` | terminal/scrollback.go:45-68 | the ring stands for the history with the lines appended, retaining exactly the last `capacity` since the last clear |
| `Scrollback.ScrollbackRing.LinesFrom` | terminal/scrollback.go:105-118 | the retained history from an index, clamped to what is retained |
| `Scrollback.ScrollbackRing.LinesRange` | terminal/scrollback.go:129-144 | a prefix of what `LinesFrom` gives, cut to the count asked for |
| `Scrollback.ScrollbackRing.Clear` | terminal/scrollback.go:171-175 | nothing is retained, and indices go on from where they were |
| `Scrollback.AppendKeepsIndices` | terminal/scrollback.go:45-83 | a line keeps its absolute index and content for ever, and the retention floor only rises |
| `InputProtocol.ExactlyOnce` | web/src/connection.ts:591-608 | from a session's first connection on, whether its first resume makes the ledger or finds it, while the server keeps the ledger, over any drops and resumes: what the program was given is a prefix of the bytes accepted since the last reset, the outbox is those bytes from the acknowledged position on, and acknowledged <= received <= sent |
| `InputProtocol.NothingGivenUp` | terminal/client_registry.go:163-179 | if nothing is accepted before the server has served the first resume, no reset ever happens: the prefix is one of all the bytes accepted |
| `InputProtocol.NoByteTwice` | web/src/connection.ts:1583-1607 | with ledgers reclaimed at any moment, if every loss-flagged acknowledgement is heard, no byte is delivered twice or out of order |
| `InputProtocol.DrainedMeansDelivered` | web/src/connection.ts:774-778 | on a live connection whose channel has drained, every byte accepted since the last reset has reached the program |
| `InputHazards.WindowInput` | web/src/connection.ts:748-778 | input accepted between a socket's open and its acknowledgement is delivered exactly once if and only if there is none |
| `InputHazards.LateBytes` | terminal/terminal.go:2054-2062 | bytes of a superseded socket read after the new resume are delivered twice; exactly-once if and only if there are none |
| `InputHazards.UnheardLoss` | web/src/connection.ts:736-746 | a client holding no acknowledgement that misses the loss flag duplicates input exactly when the ledger was recreated |
| `InputHazards.BeforeFirstResume` | terminal/client_registry.go:163-179 | input accepted before the first connection is reported lost and dropped, unless there is none |
| `InputHazards.ReloadLosesInput` | web/src/connection.ts:748-778 | after a page reload that keeps its key, under a ledger that has counted some bytes, as many of the first bytes sent can be trimmed as acknowledged without ever arriving: the run, and exactly what is left to send |
| `InputHazards.ReloadExactly` | web/src/connection.ts:168-196 | every run from such a reload delivers input exactly once if and only if the server had counted nothing |
| `Outbox.DropFrontDrops` | web/src/connection.ts:748-771 | trimming whole and partial chunks removes exactly the acknowledged bytes from the front |
| `Outbox.LedgerTracksStream` | web/src/connection.ts:591-608 | sending and acknowledging keep the outbox equal to the stream from the acknowledged position on |
| `Outbox.OutboxIsBounded` | web/src/connection.ts:591-608 | what is queued never passes one mebibyte, input is refused only where it would, and acknowledging never adds |
| `Outbox.ResumeState.SendBinary` | web/src/connection.ts:591-608 | accepted input is counted and queued; input past the outbox cap is refused and changes nothing |
| `Outbox.ResumeState.ApplyAck` | web/src/connection.ts:748-771 | the trimming loop, stale and overlong acknowledgements included, is the ledger's acknowledgement |
| `Outbox.ResumeState.ResetForgottenLedger` | web/src/connection.ts:736-746 | the ledger is emptied, and the user is told only if something unacknowledged went |
| `Framing.FramingFaithful` | terminal/terminal.go:2005-2115 | for every mix of controls and input, wherever the upgrade falls, the server acts on exactly the controls sent and writes exactly the input bytes sent, in order, and its latch equals the client's flag |
| `Framing.PrefixFaithful` | terminal/terminal.go:2005-2115 | with any part of the channel undelivered or lost, what was acted on and written is a prefix of what was intended |
| `Framing.VersionsServed` | terminal/terminal.go:2130-2149 | from a fresh socket a resume at version 1 or 2 closes it with no event, and at version 0, 3 or any higher one is acted on and leaves it open |
| `Framing.NewerIsServed` | terminal/terminal.go:2141-2149 | whatever version above 0 is served, every higher one is |
| `Framing.OpeningUpgrades` | terminal/terminal.go:2060-2115 | a resume at version 4 or above and then the upgrade leave the socket open, armed and latched, both acted on |
| `Framing.OlderStaysBinary` | terminal/terminal.go:2060-2115 | a client at version 3, or silent about it, is served and stays on the binary framing, where an upgrade would close the connection |
| `Framing.UnknownControls` | terminal/terminal.go:2005-2115 | an unknown control does nothing after the upgrade, closes the connection as text before it, and does nothing as a binary message |
| `Framing.StrayTextCloses` | terminal/terminal.go:2060-2115 | text that is empty, no UTF-8 or no control, or that comes before a resume has armed the connection, closes it and does nothing else |
| `Framing.TextIsNeverInput` | terminal/terminal.go:2060-2115 | a text message adds nothing or the one control it spells, or closes the connection; it is never written to the program |
| `Framing.InputIsWritten` | web/src/connection.ts:622-639 | input bytes are written exactly, leading NULs and text that spells a control included |
| `Framing.UnsplitInputIsMistaken` | web/src/connection.ts:622-639 | without the client's splitting, a NUL and a control's text in one binary message would be taken for the control |
| `Framing.ClientReadLoop` | terminal/terminal.go:2005-2029 | the read loop handles messages in order and stops at the first it refuses |
| `Framing.SendInputFrames` | web/src/connection.ts:622-639 | the client's loop sends each leading NUL alone and the rest whole |
| `Registry.ClientRegistry.ResolveSession` | terminal/client_registry.go:163-179 | a ledger some socket holds is never reclaimed; the ledger just created goes itself when the cap would be passed and every other retained one is held, and otherwise only on a tie with every one not held, all seen at this instant |
| `Registry.ClientRegistry.GcIdleSessions` | terminal/client_registry.go:203-219 | exactly the ledgers idle past the window that no socket holds go; one seen within the hour, or held, is retained |
| `Registry.ClientRegistry.ReclaimableExactly` | terminal/client_registry.go:203-219 | a ledger can be reclaimed exactly when no socket holds it and it was last seen more than an hour ago |
| `Registry.ClientRegistry.EvictOldestSession` | terminal/client_registry.go:229-255 | over the cap one ledger goes: the longest unseen nobody holds, or the longest unseen of all |
| `Registry.ClientRegistry.IncrementReceived` | terminal/client_registry.go:312-322 | bytes are counted on the ledger the socket holds, even if the table has dropped it |
| `Registry.ClientRegistry.NoteAcksSent` | terminal/client_registry.go:294-309 | the acknowledgement each socket was told only ever rises |
| `Registry.ClientRegistry.AckSweepTargets` | terminal/client_registry.go:265-283 | exactly the sockets whose count is not the one last told, each noted as told |
| `VtInvariant.TerminalsStayWellFormed` | vt/screen.go:318-502 | from a new terminal, over any writes of any bytes and any resizes that never shrink an alternate screen to or below the saved scroll top, sizes, cursor, margins, wrap flags, tab stops, saved cursors and the saved screen stay sound |
| `VtTerminal.RunTerminal` | vt/screen.go:301-502 | a terminal of a byte parser and stored rows, from its start through any writes of any bytes and any such resizes: no two of its rows, showing or put aside, are the same array, and fields and row contents are those of the value machine's run |
| `VtTerminal.Terminal.TakeAll` | vt/screen.go:318-502 | from any sound terminal, any run of writes and resizes keeps it sound, rows in storage of their own, and ends in the value machine's run |
| `VtTerminal.Terminal.Write` | vt/screen.go:318-323 | a write through the built table, the flat slots and the stored rows is the value machine's write; every row it lets in is new |
| `VtTerminal.VisitAlternate` | vt/screen.go:807-926 | a visit to the alternate screen by any bytes, on stored rows: the arrays that come back hold what the main screen's held |
| `VtTerminal.Apply` | vt/parse.go:56-123 | each parser event does to the stored screen what it does to the value: rows stay sound and new ones are new |
| `VtDispatch.DispatchCsi` | vt/csi.go:237-292 | a control sequence, pending wrap and intermediates first, on the stored screen |
| `VtDispatch.DispatchEsc` | vt/parse.go:319-430 | an escape, on the stored screen: indexing, saved cursors, tab stops, guarded areas, shifts, charsets, the alignment pattern and the hard reset |
| `VtDispatch.Execute` | vt/parse.go:267-316 | a control character: backspace, line feed with its carriage return, tab at a pending wrap, shifts, guards |
| `VtDispatch.ApplyModes` | vt/csi.go:927-1087 | the loop over modes, screens switched under way, is the fold of single modes |
| `VtDispatch.RecallModes` | vt/csi.go:1122-1142 | each mode as last remembered, off if never |
| `VtDispatch.RememberModes` | vt/csi.go:1109-1120 | each mode's present value is remembered |
| `VtControls.HardReset` | vt/parse.go:380-417 | rows put aside are dropped, the screen blanked in place, everything else as at the start |
| `VtControls.SoftReset` | vt/csi.go:1478-1519 | pen, margins, saved cursors, modes and charsets, and nothing of the cells |
| `VtControls.ColumnMode` | vt/csi.go:1144-1157 | margins and cursor reset, the screen cleared unless mode 95 keeps it |
| `VtControls.EraseDisplay` | vt/csi.go:563-597 | below, above, all with wrap flags and history, or history alone |
| `VtControls.EraseLine` | vt/csi.go:599-614 | right of, left of, or the whole of the cursor's row |
| `VtControls.RectBox` | vt/csi.go:466-490 | rectangle bounds under origin mode, clamped, possibly empty |
| `VtControls.CopyRect` | vt/csi.go:526-559 | copied through a buffer, overlapping or not; an empty rectangle copies nothing |
| `VtControls.RepeatLast` | vt/csi.go:690-701 | the last rune as often as asked, in the style it had, the pen's style put back |
| `VtInvariant.ApplyKeeps` | vt/csi.go:237-292 | no event of the byte stream breaks the screen's invariant |
| `VtInvariant.ExitAltKeepsExactly` | vt/screen.go:870-926 | leaving the alternate screen keeps the screen well formed if and only if the saved scroll top is still on it |
| `VtInvariant.ResizeKeepsExactly` | vt/screen.go:364-387 | a resize always leaves the screen well formed, and fit to leave the alternate screen exactly when it does not shrink to or below the saved scroll top |
| `VtInvariant.DeepShrinkBreaks` | vt/screen.go:903-923 | a four-row screen shrunk to two while the alternate screen is up comes back with a region starting below the screen |
| `VtAlternate.AlternateSessionIsIsolated` | vt/screen.go:807-926 | any events between entering the alternate screen and leaving by mode 1049, none of them leaving or resetting, keep main cells, wrap flags, cursor, style and scroll region |
| `VtAlternate.ApplyKeepsAlt` | vt/csi.go:960-1087 | no event but a mode reset, a mode recall or a hard reset touches what the alternate screen has saved |
| `VtSequences.AlternateVisitIsIsolated` | vt/csi.go:927-957 | the same of bytes: enter sequence, any bytes cut off anywhere, leave sequence |
| `VtSequences.CsiIsParsed` | vt/parse.go:7-98 | from any parser state, a control sequence is delivered as one event with its parameters split, its marker and its final byte |
| `VtSequences.PrintedStyleSetsPen` | vt/sgr.go:193-271 | the bytes printed for a style, written to a terminal at rest, make the pen exactly that style |
| `VtAutowrap.AutowrapRoundTrip` | vt/screen.go:599-723 | text of any length, widths 1 and 2 mixed, printed on a fresh screen of two rows or more that wide glyphs fit, is spelled back by the runs of the rows scrolled off and then the rows on screen, less trailing blanks, with wrap flags exactly on continuation rows |
| `VtAutowrap.PrintingLaysOut` | vt/screen.go:599-723 | every row, scrolled off or on screen, holds its line of the text; a wide glyph with one column left goes whole to the next row |
| `VtAutowrap.StreamSpells` | vt/wire.go:124-152 | the marks of second halves apart, the cells of a text spell its runes, with a space before each wide one that did not fit its line |
| `Parser.SelfSynchronises` | vt/parse.go:7-53 | whatever two parsers have read, after an ESC they deliver the same events for the same bytes for ever |
| `VtStrings.EscIsParsed` | vt/parse.go:7-98 | from any parser state ESC and a final byte are one escape |
| `VtStrings.EscWithIsParsed` | vt/parse.go:7-98 | and with an intermediate byte, whatever the final byte |
| `VtStrings.OscIsParsed` | vt/parse.go:56-98 | a command ended by BEL or ST is one event with its payload, 4096 bytes of it at most |
| `VtStrings.OscEndedByEscape` | vt/parse.go:56-98 | ended by ESC and a backslash it is delivered once, at the ESC |
| `VtStrings.DcsIsParsed` | vt/parse.go:56-98 | a device-control string is hooked, put byte by byte and unhooked once |
| `VtStrings.UnreadStringsAreSilent` | vt/table.go:340-421 | the three kinds of string nobody reads deliver nothing, whatever they hold |
| `VtStrings.OneByteIntroducers` | vt/table.go:366-421 | within a sequence a one-byte introducer opens what ESC and its own letter open |
| `VtStrings.StrayHighBytes` | vt/parse.go:100-123 | at rest a byte that starts no code point is one replacement glyph |
| `VtStrings.ControlsActInside` | vt/table.go:49-340 | a control character inside a control sequence acts at once and leaves the sequence as it was |
| `VtStrings.CancelEnds` | vt/table.go:366-421 | CAN and SUB end any sequence there and then and are delivered themselves |
| `VtStrings.LateMarkerSpoils` | vt/table.go:49-340 | a marker that does not come first spoils the sequence, which delivers nothing |
| `VtStrings.CsiWithIsParsed` | vt/parse.go:7-98 | parameters, an intermediate byte and a final byte are one event |
| `VtStrings.RuneIsDelivered` | vt/parse.go:100-123 | the bytes of a code point are delivered as that one glyph, ASCII as the byte it is |
| `VtStrings.TextIsDelivered` | vt/parse.go:442-469 | a text encoded as rows are encoded is delivered code point by code point |
| `VtStrings.OnlyShortestIsDecoded` | vt/parse.go:442-469 | whatever the decoder lets through is the one shortest encoding of a scalar value, which the encoder gives back byte for byte |
| `VtStrings.BrokenRuneIsReplaced` | vt/parse.go:7-53 | a code point cut short is one replacement glyph, and the byte that cut it is read as if nothing had come before |
| `Parser.AbortedOscIsInvisible` | vt/table.go:366-421 | an operating-system command cut short by CAN or SUB delivers nothing but that control, and the rest is read as if it had never been |
| `Parser.AbortedDcsNeverUnhooks` | vt/table.go:366-421 | a device-control string cut short never reaches its unhook |
| `Parser.RunsStayTidy` | vt/parse.go:7-123 | over any bytes buffers stay within bounds, and an escape starts clean |
| `VtStream.AbortedOscDrawsNothing` | vt/parse.go:56-98 | a terminal at rest shows after an aborted command what it would have shown without it |
| `VtStream.AbortedDcsDrawsNothing` | vt/parse.go:56-98 | a device-control payload cut short draws nothing |
| `VtStream.WriteAppend` | vt/screen.go:318-323 | a byte stream split across writes at any point comes to the same terminal |
| `VtTable.BuildTable` | vt/table.go:49-421 | the table built by overwriting ranges, entry by entry, is the direct definition of all 14 by 256 transitions |
| `VtTable.ApplyAnywhere` | vt/table.go:366-421 | which bytes mean the same in every state, and which states keep C1 bytes as data |
| `ByteFeed.ByteParser.Feed` | vt/parse.go:7-53 | one byte through table, buffers and slots in place is one step of the byte machine |
| `ByteFeed.ByteParser.DoAction` | vt/parse.go:56-98 | each action changes state and delivers what the machine's action says |
| `ByteFeed.ByteParser.FeedAll` | vt/screen.go:318-323 | a whole write delivers the machine's events for its bytes |
| `CsiParams.ParseIsNestedSplit` | vt/parse.go:125-186 | for every parameter string, the flat accumulation is the split at `;` then `:` with values saturated at 65535, cut to the first 32 values |
| `ParamSlots.ReadParams` | vt/parse.go:125-244 | reading a string through the flat arrays gives that split, every group-start walk in bounds |
| `ParamSlots.Slots.PushParam` | vt/parse.go:148-168 | storing a value and opening a group in the arrays is the same on the groups they stand for |
| `ParamSlots.Slots.ParamGroup` | vt/parse.go:219-244 | a group is read as its first eight values, or none past the last group |
| `ParamSlots.Slots.GroupStartIdx` | vt/parse.go:204-210 | the walk over stored lengths ends at the group's start |
| `Sgr.PrintedStyleReadsBack` | vt/sgr.go:229-271 | for every style a parser can reach, the printed string parsed and applied over any prior style gives the style back if and only if not both underline flags are set, and its parameters fit the slots |
| `Sgr.BothUnderlinesReachable` | vt/sgr.go:9-108 | the excluded state is reached by 21 and then a plain 4 |
| `Sgr.ReachableStylesOk` | vt/sgr.go:9-180 | colours of any applied style stay within their kinds and byte ranges |
| `Sgr.ParamsFit` | vt/sgr.go:229-271 | at most 25 parameters, each at most 255, are printed for a style, one more if it has both underlines |
| `SgrLaws.BoldItalicOff` | vt/sgr.go:66-71 | 22 clears bold and dim, 23 italic, and nothing else |
| `SgrLaws.UnderlineBlinkOff` | vt/sgr.go:72-76 | 24 clears both underlines, 25 blink, and nothing else |
| `SgrLaws.InverseHiddenOff` | vt/sgr.go:77-80 | 27 clears inverse, 28 concealment, and nothing else |
| `SgrLaws.StrikeOverlineOff` | vt/sgr.go:81-97 | 29 clears strike-through, 55 overline, and nothing else |
| `SgrLaws.BoldUndone` | vt/sgr.go:9-108 | 1 and then 22 is 22 alone |
| `SgrLaws.DimUndone` | vt/sgr.go:9-108 | 2 and then 22 is 22 alone |
| `SgrLaws.ItalicUndone` | vt/sgr.go:9-108 | 3 and then 23 is 23 alone |
| `SgrLaws.UnderlineUndone` | vt/sgr.go:9-108 | 4 and then 24 is 24 alone |
| `SgrLaws.DoubleUnderlineUndone` | vt/sgr.go:9-108 | 21 and then 24 is 24 alone |
| `SgrLaws.BlinkUndone` | vt/sgr.go:9-108 | 5 and then 25 is 25 alone |
| `SgrLaws.RapidBlinkUndone` | vt/sgr.go:9-108 | 6 and then 25 is 25 alone |
| `SgrLaws.InverseUndone` | vt/sgr.go:9-108 | 7 and then 27 is 27 alone |
| `SgrLaws.HiddenUndone` | vt/sgr.go:9-108 | 8 and then 28 is 28 alone |
| `SgrLaws.StrikeUndone` | vt/sgr.go:9-108 | 9 and then 29 is 29 alone |
| `SgrLaws.OverlineUndone` | vt/sgr.go:9-108 | 53 and then 55 is 55 alone |
| `SgrLaws.UnderlineKinds` | vt/sgr.go:28-50 | 4:0 is 24, 4:2 is 21, and every other kind a single underline whatever was there |
| `SgrLaws.LastColorStands` | vt/sgr.go:9-108 | of two colours of one plane the last stands, the default among them |
| `SgrLaws.PlanesApart` | vt/sgr.go:9-108 | a foreground colour and a background colour, or an attribute, in either order are the same |
| `SgrLaws.DefaultsColor` | vt/sgr.go:9-108 | 39, 49 and 59 give their plane the default back and touch nothing else |
| `SgrLaws.IndexForms` | vt/sgr.go:114-180 | the colon and the semicolon form of an index agree, cut at 255, and set their own plane alone |
| `SgrLaws.RgbForms` | vt/sgr.go:114-180 | so do those of RGB, with a colour-space slot or without |
| `Sgr.Pen.Apply` | vt/sgr.go:9-108 | the loop over groups is the fold of single steps, extended colours taking the groups they use |
| `VtRows.ShiftBox` | vt/csi.go:1438-1476 | cells of a box shifted in place, the gap blanked, exactly as the cell-by-cell definition |
| `VtRows.BoxUp` | vt/csi.go:1324-1346 | a boxed scroll copies columns row by row and blanks the last |
| `VtRows.PasteBox` | vt/csi.go:526-559 | a box copied through a buffer onto rows of its own, cut at the edges, is the cell-by-cell definition, overlap included |
| `VtRows.EraseRows` | vt/screen.go:739-768 | exactly the unprotected cells of a box become blank |
| `VtStore.RowStore.ScrollStep` | vt/csi.go:1324-1379 | one scroll step, rows moved by reference or columns copied, is the value operation on contents and flags, keeps every row in storage of its own and leaves the saved screen alone |
| `VtStore.RowStore.EnterAlt` | vt/screen.go:807-856 | main rows are copied aside; alternate rows kept from before are reused only if they fit and are not to be cleared |
| `VtStore.RowStore.ExitAlt` | vt/screen.go:870-926 | saved rows come back at the present size, sharing no storage with the rows kept |
| `VtStore.RowStore.Resize` | vt/screen.go:364-502 | live rows refit, above or below by screen; saved rows copied unless they fit already; no two rows share storage |
| `VtStore.RowStore.NoneShared` | vt/screen.go:807-926 | while the store is sound no two rows, on the screen or behind it, are the same array |
| `VtPrinter.TerminalScreen.Put` | vt/screen.go:599-683 | deferred wrap, wide glyph at the edge, insert mode, the cell, its spacer and the advance, in place over row arrays, is the value operation |
| `VtPrinter.TerminalScreen.ScrollUpOnce` | vt/csi.go:1324-1346 | the region scrolls, and the top row is drained only when the region is the whole screen |
| `VtPrinter.TerminalScreen.DrainTopRow` | vt/screen.go:705-723 | the row joins the history, and its text the tail only while the row below continues it |
| `VtPrinter.TerminalScreen.LineDown` | vt/csi.go:1348-1360 | down, or a scroll at the bottom margin when within the side margins |
| `VtPrinter.TerminalScreen.InsertLines` | vt/csi.go:1280-1300 | line by line from the cursor's row, the cursor to the left margin, nothing outside the region |
| `VtPrinter.TerminalScreen.DeleteLines` | vt/csi.go:1302-1322 | the same upwards |
| `VtPrinter.TerminalScreen.InsertChars` | vt/csi.go:1182-1194 | the row from the cursor to the right margin shifted, blanks let in |
| `VtPrinter.TerminalScreen.DeleteChars` | vt/csi.go:1199-1212 | the row from the cursor closed up |
| `VtPrinter.TerminalScreen.InsertColumns` | vt/csi.go:1218-1240 | columns inserted over the region's rows, and nowhere else |
| `VtPrinter.TerminalScreen.DeleteColumns` | vt/csi.go:1242-1260 | columns deleted there |
| `VtPrinter.TerminalScreen.ReverseIndex` | vt/parse.go:357-366 | up a line, or the region down at its top when within the side margins |
| `VtPrinter.TerminalScreen.BackIndex` | vt/csi.go:1385-1396 | left a column, or the region right at its left margin |
| `VtPrinter.TerminalScreen.ForwardIndex` | vt/csi.go:1400-1412 | right a column, or the region left at its right margin |
| `VtPrinter.TerminalScreen.EnterAltScreen` | vt/screen.go:807-856 | once entered, entering again does nothing; mode 1049 also homes the cursor and resets the pen |
| `VtPrinter.TerminalScreen.ExitAltScreen` | vt/screen.go:870-926 | rows, region with only its bottom clamped, cursor and pen as the value operation gives them |
| `VtPrinter.TerminalScreen.Resize` | vt/screen.go:364-502 | rows, flags, cursor, margins, tab stops and the saved screen with its cursor, all at the new size |
| `VtPrinter.TerminalScreen.CursorLeft` | vt/csi.go:376-392 | under reverse wrap, as many backspaces; otherwise one bounded move |
| `VtPrinter.TerminalScreen.Backspace` | vt/csi.go:402-424 | a pending wrap, the left margin and the top of the region under reverse wrap |
| `VtPrinter.TerminalScreen.CursorUp` | vt/csi.go:306-313 | stops at the top margin unless already above it |
| `VtPrinter.TerminalScreen.CursorDown` | vt/csi.go:319-326 | stops at the bottom margin unless already below it |
| `VtPrinter.TerminalScreen.CursorPosition` | vt/csi.go:331-356 | origin mode counts from the margins and stays within them |
| `VtPrinter.TerminalScreen.NextTabStop` | vt/tabstops.go:37-47 | the first set stop past the cursor, or the width |
| `VtPrinter.TerminalScreen.PrevTabStop` | vt/tabstops.go:50-63 | the last set stop before the cursor, or column 0 |
| `VtPrinter.TerminalScreen.Tabs` | vt/csi.go:644-676 | stop by stop, up to the margin or edge the cursor may not pass, until one more changes nothing |
| `VtPrinter.TerminalScreen.BackTabs` | vt/csi.go:678-688 | stop by stop back, to the first column at the least |
| `VtPrinter.TerminalScreen.SetStop` | vt/tabstops.go:6-29 | the default stops are written out first, then the cursor's set or cleared |
| `VtPrinter.TerminalScreen.RestoreCursor` | vt/tabstops.go:93-118 | each screen's own slot, clamped to the present size; autowrap is not restored |
| `VtPrinter.TerminalScreen.SetScrollRegion` | vt/csi.go:744-758 | an empty region is refused; otherwise the cursor homes |
| `VtCells.MoveUpTwice` | vt/csi.go:627-640 | scrolling a box twice the same way is scrolling it once by the sum |
| `VtLaws.GlyphCells` | vt/screen.go:599-663 | one printed glyph at either width: the cursor's cell holds the rune with the pen, for a wide one the next cell its second half with the same pen, and every other cell what it held, but for what insert mode pushed along |
| `VtLaws.GlyphMovesCursor` | vt/screen.go:599-663 | the cursor stands past the glyph, or on the edge with the wrap deferred where autowrap is on; nothing but cells, cursor and the rune to repeat has changed |
| `VtLaws.NoWidthNoGlyph` | vt/screen.go:599-605 | a rune of no width prints nothing |
| `VtLaws.DeferredWrapFirst` | vt/screen.go:599-690 | a deferred wrap is made good first, on the next row or, from the bottom margin on, on that margin |
| `VtEditLaws.WrapMarksContinuation` | vt/screen.go:690-700 | a wrapped row is marked as continuing the one above exactly where rows wrap over the whole width |
| `VtLaws.EraseBelowCells` | vt/csi.go:571-573 | after mode 0 a cell is the pen's blank if it is not before the cursor in reading order and not guarded, and as it was otherwise |
| `VtLaws.EraseAboveCells` | vt/csi.go:574-576 | after mode 1 the same with not after the cursor |
| `VtLaws.EraseWholeCells` | vt/csi.go:577-586 | after mode 2 every cell is, guarded or not, no row continues another, and what had scrolled off is dropped |
| `VtLaws.EraseSavedLines` | vt/csi.go:587-594 | mode 3 touches the history alone, and says so |
| `VtLaws.ErasesAddUp` | vt/csi.go:563-597 | modes 0 and 1 one after the other leave what mode 2 leaves, where nothing is guarded |
| `VtLaws.EraseLineCells` | vt/csi.go:599-614 | the same three modes on the cursor's row alone |
| `VtLaws.EraseCharsCells` | vt/csi.go:616-625 | as many cells as asked from the cursor on, or to the end of the row |
| `VtLaws.DisplayErases` | vt/csi.go:237-292 | J asks for these with its mode |
| `VtLaws.PlainlyErasesBelow` | vt/csi.go:237-292 | and without one for mode 0 |
| `VtLaws.LineErases` | vt/csi.go:237-292 | K for those of the line |
| `VtLaws.CharsErases` | vt/csi.go:237-292 | X for those of characters |
| `VtLaws.SelectiveDisplayErases` | vt/csi.go:237-292 | with a question mark J spares protected cells |
| `VtLaws.SelectiveLineErases` | vt/csi.go:237-292 | and K |
| `VtEditLaws.InsertCharsCells` | vt/csi.go:1182-1197 | the rest of the row moves right, blanks open at the cursor, and what passes the margin is lost |
| `VtEditLaws.DeleteCharsCells` | vt/csi.go:1199-1212 | the rest of the row closes up from the right |
| `VtEditLaws.CharsNeedMargins` | vt/csi.go:1182-1212 | neither does anything with the cursor outside the side margins |
| `VtEditLaws.InsertLinesCells` | vt/csi.go:1280-1300 | the cursor's row and those below move down to the region's bottom, and the cursor goes to the left margin |
| `VtEditLaws.DeleteLinesCells` | vt/csi.go:1302-1322 | those below move up over it |
| `VtEditLaws.LinesNeedRegion` | vt/csi.go:1270-1322 | neither does anything with the cursor outside the region |
| `VtEditLaws.FlagsFollowRows` | vt/csi.go:1280-1322 | a row that moves whole takes its wrap flag along; a narrower box leaves the flags |
| `VtEditLaws.ScrollUpCells` | vt/csi.go:627-633 | the region's rows move up as many as asked, the cursor stays |
| `VtEditLaws.ScrollDownCells` | vt/csi.go:635-640 | they move down |
| `VtEditLaws.ScrollDownToo` | vt/csi.go:237-292 | the other spelling of SD is the same |
| `VtEditLaws.MarkedIsNotScroll` | vt/csi.go:237-292 | with the marker of another sequence it does nothing |
| `VtEditLaws.ScrollUpDrains` | vt/csi.go:1324-1346 | SU on the whole screen sends exactly the rows that leave it to the history, oldest first, each with whether the next continued it; on a smaller box none |
| `VtEditLaws.AlternateKeepsTail` | vt/screen.go:705-723 | the alternate screen's rows leave no text behind for the main screen's |
| `VtEditLaws.InsertColumnsCells` | vt/csi.go:1218-1240 | what inserting does to one row, over all the region's rows; nothing outside it |
| `VtEditLaws.DeleteColumnsCells` | vt/csi.go:1242-1264 | and deleting |
| `VtEditLaws.ShiftLeftCells` | vt/csi.go:1438-1456 | the region's rows to the left, side margins ignored |
| `VtEditLaws.ShiftRightCells` | vt/csi.go:1458-1476 | and to the right |
| `VtEditLaws.BackIndexMoves` | vt/csi.go:1385-1398 | a column back, and at the left margin the region's contents right instead |
| `VtEditLaws.ForwardIndexMoves` | vt/csi.go:1400-1412 | a column on, and at the right margin the contents left |
| `VtEditLaws.IndexMoves` | vt/csi.go:1348-1360 | a row down, and on the bottom margin, between the side margins, the region up instead |
| `VtEditLaws.ReverseIndexMoves` | vt/parse.go:357-367 | a row up, and on the top margin the region down |
| `VtEditLaws.LineFeedIndexes` | vt/parse.go:267-316 | a line feed indexes, from column 0 in new-line mode |
| `VtEditLaws.RectIsNamed` | vt/csi.go:466-490 | the rectangle a sequence names, counted from 1 at the page's corner, with what is left out and what lies past the page |
| `VtEditLaws.EraseRectCells` | vt/csi.go:511-524 | exactly the named cells become blank, or all but the protected ones |
| `VtEditLaws.FillRectCells` | vt/csi.go:495-509 | they hold the character given in the pen's style, a control being a space |
| `VtEditLaws.CopyRectCells` | vt/csi.go:526-559 | the cell at a distance from the destination's corner is what stood at that distance from the source's, all read before any is written |
| `VtEditLaws.EraseRectSequence` | vt/csi.go:266-292 | DECERA asks for that |
| `VtEditLaws.SelectiveEraseRectSequence` | vt/csi.go:266-292 | DECSERA |
| `VtEditLaws.FillRectSequence` | vt/csi.go:266-292 | DECFRA |
| `VtEditLaws.CopyRectSequence` | vt/csi.go:266-292 | DECCRA, its page ignored |
| `VtEditLaws.AlignmentCells` | vt/parse.go:422-440 | the whole screen is E, margins and cursor at their start |
| `VtEditLaws.RepeatsLastGlyph` | vt/csi.go:690-701 | REP after a printed glyph prints it as often again |
| `VtEditLaws.RepeatsInItsStyle` | vt/csi.go:690-701 | in the style it was printed in, whatever the pen has taken since, and the pen keeps its own |
| `VtMotionLaws.UpOne` | vt/csi.go:306-317 | one row up, stopped by the top margin and the top of the screen |
| `VtMotionLaws.DownOne` | vt/csi.go:319-329 | one row down, stopped likewise |
| `VtMotionLaws.RightOne` | vt/csi.go:360-374 | one column right, stopped by the right margin and the edge |
| `VtMotionLaws.LeftOne` | vt/csi.go:376-400 | one column left, stopped likewise |
| `VtMotionLaws.LeftOneBacks` | vt/csi.go:376-400 | under reverse wrap a backspace |
| `VtMotionLaws.UpSums` | vt/csi.go:306-317 | many steps at once are as many single ones |
| `VtMotionLaws.DownSums` | vt/csi.go:319-329 | so down |
| `VtMotionLaws.RightSums` | vt/csi.go:360-374 | so right |
| `VtMotionLaws.LeftSums` | vt/csi.go:376-400 | so left, under reverse wrap as well |
| `VtMotionLaws.NoCountIsOne` | vt/parse.go:252-265 | the motions, edits and scrolls that take one count take zero, or none, as one |
| `VtMotionLaws.NextLineReturns` | vt/csi.go:237-292 | CNL is CUD and then the left margin |
| `VtMotionLaws.PrecedingLineReturns` | vt/csi.go:237-292 | CPL is CUU and then the left margin |
| `VtMotionLaws.RowsForward` | vt/csi.go:237-292 | VPR is CUD |
| `VtMotionLaws.ColumnsForward` | vt/csi.go:297-304 | HPR heeds no margin, only the edge |
| `VtMotionLaws.AddressesCell` | vt/csi.go:331-358 | CUP goes to the cell addressed from 1, or the nearest the page has; in origin mode the region's |
| `VtMotionLaws.AddressesCellToo` | vt/csi.go:14-24 | HVP is CUP |
| `VtMotionLaws.HomesPlainly` | vt/csi.go:331-358 | without parameters the page's first cell |
| `VtMotionLaws.AddressesColumn` | vt/csi.go:350-358 | CHA addresses a column |
| `VtMotionLaws.AddressesColumnToo` | vt/csi.go:14-24 | HPA is CHA |
| `VtMotionLaws.AddressesRow` | vt/csi.go:339-348 | VPA addresses a row |
| `VtMotionLaws.ReturnsToLeft` | vt/parse.go:267-316 | CR goes to the left margin, or from before it to column 0 |
| `VtMotionLaws.BacksOne` | vt/csi.go:402-431 | BS goes one column back but not over the left margin, and wraps back only under reverse wrap |
| `VtMotionLaws.NextStopIsFirst` | vt/tabstops.go:37-48 | the next stop is the first set past the cursor, or every eighth column where none was ever set |
| `VtMotionLaws.PrevStopIsLast` | vt/tabstops.go:50-66 | the previous one the last set before it |
| `VtMotionLaws.TabsToStop` | vt/csi.go:656-676 | a tab ends on the first stop past the cursor, or on the margin or edge if that comes first |
| `VtMotionLaws.OneTabForward` | vt/csi.go:644-654 | CHT by one is a tab |
| `VtMotionLaws.TabSums` | vt/csi.go:644-654 | and by many as many tabs |
| `VtMotionLaws.OneTabBack` | vt/csi.go:678-688 | CBT by one ends on the last stop before the cursor, or the first column |
| `VtMotionLaws.BackTabSums` | vt/csi.go:678-688 | and by many as many single ones |
| `VtMotionLaws.SetsOneStop` | vt/tabstops.go:13-20 | HTS sets a stop at the cursor and changes no other |
| `VtMotionLaws.ClearsOneStop` | vt/tabstops.go:22-29 | TBC clears it and changes no other |
| `VtMotionLaws.ClearsEveryStop` | vt/csi.go:731-742 | TBC 3 clears them all |
| `VtStateLaws.RestoreAfterSave` | vt/tabstops.go:78-118 | on any screen of the same size and kind, while the slot is as it was left, the restored cursor has the saved place, deferred wrap, style, protection, character sets and origin mode, and nothing else has moved |
| `VtStateLaws.SaveTouchesOneSlot` | vt/tabstops.go:69-91 | saving changes nothing else, nor the other screen's slot |
| `VtStateLaws.RestoreWithoutSave` | vt/tabstops.go:93-100 | with nothing saved the cursor goes home |
| `VtStateLaws.SavesBySequence` | vt/csi.go:237-292 | SCOSC saves where the side margins are off |
| `VtStateLaws.RestoresBySequence` | vt/csi.go:237-292 | SCORC restores |
| `VtStateLaws.ModeSavesCursor` | vt/csi.go:960-1087 | mode 1048 does both |
| `VtStateLaws.SetsRegion` | vt/csi.go:744-758 | DECSTBM sets rows counted from 1 and cut to the screen, if more than one, and homes the cursor |
| `VtStateLaws.WholeRegionPlainly` | vt/csi.go:744-758 | without parameters the whole screen |
| `VtStateLaws.SetsSideMargins` | vt/csi.go:764-781 | DECSLRM likewise, where side margins are on |
| `VtStateLaws.SideMarginsOff` | vt/csi.go:1021-1087 | mode 69 off takes them back to the edges |
| `VtStateLaws.ModeReadsBack` | vt/tabstops.go:126-206 | a mode set or reset reads back so |
| `VtStateLaws.OtherModesKeep` | vt/csi.go:960-1087 | and the other modes read as before |
| `VtStateLaws.RecalledModeReadsBack` | vt/csi.go:1109-1142 | a mode remembered and recalled reads as it did, whatever was done to it between |
| `VtStateLaws.SetsMode` | vt/csi.go:927-957 | the sequence with a question mark and h sets one mode |
| `VtStateLaws.ResetsMode` | vt/csi.go:927-957 | with l resets it |
| `VtStateLaws.ModesInOrder` | vt/csi.go:927-957 | several take effect in the order listed |
| `VtStateLaws.OriginModeHomes` | vt/csi.go:960-1087 | origin mode moves the cursor to its page's first cell, either way |
| `VtStateLaws.AnsiModeReads` | vt/csi.go:927-957 | the plain sequence with 4 sets and resets insert mode |
| `VtStateLaws.NewLineModeReads` | vt/csi.go:927-957 | with 20 new-line mode |
| `VtStateLaws.ColumnModeCells` | vt/csi.go:1144-1157 | mode 3 blanks every cell unless mode 95 forbids it, margins and cursor at their start |
| `VtStateLaws.TabWhenPending` | vt/parse.go:267-316 | a tab with a wrap deferred does nothing, or under mode 41 tabs from the next line |
| `VtStateLaws.SetsLevel` | vt/csi.go:266-292 | DECSCL sets the level, the highest if none is given |
| `VtStateLaws.HardResetIsNew` | vt/parse.go:380-417 | a hard reset leaves a new screen of the same size, but for the record that history was erased, the level, the remembered modes and the rune to repeat |
| `VtStateLaws.SoftResetIsPartlyNew` | vt/csi.go:1478-1519 | a soft reset gives pen, margins, saved cursors, modes and sets of a new screen and leaves the rest |
| `VtStateLaws.DesignatesOneSet` | vt/charset.go:111-131 | each designator changes its own slot alone |
| `VtStateLaws.ShiftsChoose` | vt/parse.go:267-316 | SI and SO choose between the first two sets |
| `VtStateLaws.SingleShiftIsOnce` | vt/charset.go:82-109 | SS2 and SS3 reach the other two for one character |
| `VtStateLaws.DrawsLines` | vt/charset.go:82-109 | the line-drawing set has boxes from j to x, and only 0x5F to 0x7E differ from ASCII |
| `VtStateLaws.GuardedSurvives` | vt/screen.go:739-768 | what is printed guarded survives both partial erases |
| `VtStateLaws.GuardEnds` | vt/parse.go:319-430 | guarding ends with EPA, by escape or by control |
| `VtStateLaws.ProtectsSelectively` | vt/csi.go:266-292 | DECSCA 1 protects, anything else ends it |
| `VtStateLaws.LinkCommand` | vt/parse.go:56-98 | a command about links sets what later cells link to, and touches nothing else |
| `VtStateLaws.ResizeKeepsCells` | vt/screen.go:364-475 | every cell there is room for is where it was, or as far down as a taller alternate screen grew above it; new ones are blank |
| `VtStateLaws.ResizeKeepsCursor` | vt/screen.go:364-475 | the cursor stays on its own cell where that is still there, or goes to the last row and column; margins are the whole screen's |
| `VtStateLaws.ResizeKeepsFlags` | vt/screen.go:412-475 | rows that are still there keep their wrap flags |
| `VtStateLaws.ResizeKeepsStops` | vt/screen.go:443-475 | tab stops stay, and new columns have the default ones |
| `VtStateLaws.MainScreenThroughResize` | vt/screen.go:480-502 | a visit to the alternate screen that sees a resize: the main cells come back where there is room, and by 1049 the cursor |
| `VtStateLaws.SavedMainIsResized` | vt/screen.go:480-502 | the main screen put aside is resized there and then, what a shrink cuts off it lost |
| `VtStateLaws.EnteringAlternate` | vt/screen.go:807-858 | whole rows whatever the region; 1049 homes the cursor and resets the style, the others leave both; again does nothing |
| `VtStateLaws.LeavingAlternateDropsDrained` | vt/csi.go:1021-1087 | rows that scrolled off it and were not taken are dropped |
| `VtStateLaws.AlternateContentsKept` | vt/screen.go:807-926 | mode 47 keeps the alternate contents for the next visit by 47 or 1047, and every other way starts blank |
| `VtCells.InsertThenDelete` | vt/csi.go:1182-1212 | deleting what was inserted puts back every cell that was not pushed out |
| `VtScreen.FlagsTwice` | vt/csi.go:1324-1379 | wrap flags moved step by step are flags moved at once |
| `Wire.CellsToRuns` | vt/wire.go:124-152 | the runs expand cell by cell to the row less its trimmable tail, a run starts only where the pen changes, and none is empty |
| `Wire.TrimTrailingBlanks` | vt/wire.go:92-114 | exactly the longest tail of cells that look blank is cut |
| `Wire.RunsSpellTheRow` | vt/wire.go:124-152 | the runs' text is the row's glyphs, wide continuations marked |
| `WireReader.RunTells` | vt/wire.go:154-205 | what a run says of the pen it was made with: each attribute by its own bit, each colour where the reader looks for it, foreground and background exchanged exactly when the inverse bit is set |
| `WireReader.RunReadsBack` | vt/wire.go:154-205 | with default and direct colours a reader gets the whole pen back |
| `WireReader.RowReadsBack` | vt/wire.go:124-205 | column by column the runs of a row tell its cells: glyph, link, attributes and direct colours |
| `WireReader.AttrsReadBack` | vt/wire.go:154-205 | the mask of the ten attributes is inverted, and never holds the bit of found links |
| `WireReader.ColorReadsBack` | vt/wire.go:514-546 | default and direct colours are inverted |
| `WireReader.PaletteWins` | vt/wire.go:514-546 | an entry of the palette is what goes out for either indexed kind |
| `WireReader.BasicByEitherKind` | vt/wire.go:514-580 | without one the first sixteen are the same by either kind |
| `WireReader.GreyColors` | vt/wire.go:561-580 | the grey ramp |
| `WireReader.CubeColors` | vt/wire.go:561-580 | the colour cube, level by level |
| `WireReader.CutColumnsAreBlank` | vt/wire.go:92-114 | what is cut off a row is unstyled, unlinked space |
| `WireReader.PenArrives` | terminal/wire_binary.go:579-609 | encoding changes nothing of that |
| `WireLinks.ApplyLinkSpans` | vt/wire.go:449-480 | for sorted disjoint spans the loop ends, and its runs expand to the same columns with link and bit stamped |
| `WireLinks.StampedAt` | vt/wire.go:449-480 | a column's text and colours are kept, and its link and bit change exactly when a span covers it and no application link is there |
| `WireLinks.BoundChain` | vt/wire.go:339-349 | at most four rows around the focus, older ones kept on a tie |
| `WireLinks.AutolinkSpans` | vt/wire.go:409-444 | each match's overlap with the focus row, mapped to columns past the row's indent |
| `WireLinks.SpansTileTheMatch` | vt/wire.go:409-444 | the columns a match covers on a row are exactly those whose offset lies in the match |
| `WireLinks.EveryOffsetHasItsRow` | vt/wire.go:409-444 | every offset of a match lies in one row and no other, whose span covers it |
| `WireLinks.SortedMatchesSortedSpans` | vt/wire.go:409-480 | sorted matches give sorted disjoint spans, which is what stamping asks |
| `WireChains.HardWrapIndent` | vt/wire.go:252-297 | the indent behind which a row goes on from a full one, or -1 exactly when there is none |
| `WireChains.MarginIsLayout` | vt/wire.go:316-326 | on a row the application wrapped itself the margin is left out of the text, on one the terminal wrapped leading blanks are text |
| `WireChains.ChainRows` | vt/wire.go:305-383 | the loops gather the row's chain and cut it to the window of at most four rows around the row, with the row's place in it |
| `WireChains.StampAutolinks` | vt/wire.go:394-401 | a row's runs stamped, column by column, with exactly the links its window's matches put on it |
| `WireChains.OneChain` | vt/wire.go:305-383 | chains divide the screen: every row between a chain's ends has that chain |
| `WireChains.SameChain` | vt/wire.go:362-383 | rows of one chain join the same text, each at its own place |
| `WireChains.MatchCoversItsChain` | vt/wire.go:339-444 | for a chain of any length: a match found in one row's window covers, on any row whose window reaches back to where the match starts, exactly the cells whose offset in the whole chain's text lies in it |
| `WireChains.MatchCoversItsWindow` | vt/wire.go:339-444 | on its own row a match covers a cell exactly when the cell's offset in the chain's text, counted from where the window starts, lies in it |
| `WireChains.OpeningRowIsSeenExactly` | vt/wire.go:339-349 | in a chain of more than four rows the opening row is in the window of the first three rows and of no other |
| `PrintedLinks.PrintedTextIsOneChain` | vt/wire.go:362-383 | text printed on a fresh screen is, from every row it lies on, one chain: its lines in order from up to three rows above the screen to the last |
| `PrintedLinks.PrintingKeepsTail` | vt/screen.go:705-723 | what is kept for joining is always the last rows scrolled off, three at most |
| `WireCodec.ScrollRoundTrip` | terminal/wire_binary.go:355-365 | a decoder written from the layout gives back a scroll frame's indices and rows as sent, nothing left over |
| `WireCodec.ScreenRoundTrip` | terminal/wire_binary.go:311-348 | and a screen frame's header, counts, flags, title rows and cursor |
| `WireCodec.RowSizeIsExact` | terminal/wire_binary.go:528-595 | the size computed for a capped row is exactly the bytes appended for it |
| `WireCodec.GridRowFits` | terminal/wire_binary.go:503-595 | a row of at most 1000 runs and 4000 bytes of text, stripped of links if need be, fits a page alone |
| `RowRender.RenderRow` | vt/wire.go:62-67 | a row of at most 1000 cells, coalesced into runs and stamped with links, is a row as the grid gives them: no empty run and no more columns than cells |
| `RowRender.GridRowOf` | terminal/wire_binary.go:503-595 | every such row, its code points encoded, has at most 1000 runs and 4000 bytes of text, and is sent within the row ceiling |
| `RowRender.RuneReadsBack` | vt/parse.go:442-469 | the encoder is the one the terminal's own decoder inverts, for every scalar value past ASCII but the one kept for wide glyphs |
| `RowRender.TextIsWellFormed` | terminal/wire_binary.go:611-620 | encoded text is well-formed UTF-8 of at most four bytes a code point, so truncation cuts it only between code points |
| `RowRender.ReplyWithRows` | terminal/terminal.go:2200-2290 | with no assumption on the bytes: a reply over any rendered rows fits 262144 bytes, holds a leading part of them, at least one, and as many as fit |
| `WireCodec.HistoryReply` | terminal/terminal.go:2200-2290 | over grid rows every reply fits 262144 bytes and is a prefix of the lines asked for, non-empty if there were any, and as long as the budget allows |
| `WireCodec.ShrinkToBudget` | terminal/terminal.go:2200-2209 | as many leading lines as the budget holds, but at least one |
| `WireCodec.TruncateUTF8` | terminal/wire_binary.go:611-620 | the longest well-formed prefix within the length field |
| `WireCodec.ShortRunsArriveWhole` | terminal/wire_binary.go:579-620 | a run whose strings fit their fields is sent unchanged |
| `WireCodec.RowsArriveWhole` | terminal/wire_binary.go:538-569 | a row that fits a reply of its own arrives whole, links included; one that does not loses its links and nothing else |
| `Paging.HistoryControl` | terminal/terminal.go:2211-2290 | ignored before the socket's first resume, unless paging is declared, on an invalid request, overflow included, and when the socket's bucket is empty; only a valid request costs a token; else the retained part of the window |
| `Paging.ServedExactly` | terminal/terminal.go:2224-2290 | the lines served are exactly the retained ones of the window, each the committed one, and end at the window's end or the tail |
| `Paging.ReplayedExactly` | terminal/terminal.go:2398-2413 | a resume replays what the client lacks of the last 2000 lines, or of as many fewer as it asks |
| `Paging.NothingRetainedIsUnreachable` | terminal/terminal.go:150-176 | with no bound of its own, every retained line a client lacks is replayed or can be fetched |
| `Paging.UnreachableExactly` | terminal/terminal.go:2356-2413 | with a bound of its own, retained lines are out of reach if and only if paging is not declared and more are missing than the bound replays |
| `Paging.ShallowRingHidesLines` | terminal/terminal.go:150-176 | a ring too shallow to declare paging, a client with no lines and a bound of one: a retained line that is neither replayed nor to be fetched |
| `Paging.FloorRaiseExactly` | web/src/connection.ts:1137-1170 | the floor a reply raises is sound if and only if the window asked for stays within the tail or some of it is still retained |
| `Paging.FloorPassesTheTail` | web/src/connection.ts:1137-1170 | asked for line 0 while there is none, an empty ring raises the floor to 1, above the first line it then commits |
| `Paging.RetainedIsFetchable` | terminal/terminal.go:2224-2290 | any retained line can be asked for exactly where paging is declared |
| `Pacing.ServerNeverThrottles` | terminal/terminal.go:594-610 | every request sequence the client's bucket grants is granted by the server's, if the one-way delay varies by at most half a second |
| `Pacing.AnyMoreWouldThrottle` | web/src/connection.ts:335-347 | any wider variation at all lets a granted sequence be throttled, so half a second is exact |
| `Pacing.GrantsArePaced` | web/src/connection.ts:335-347 | granted requests are never closer than burst and refill allow, from any attempts |
| `Pacing.WaitingIsEnough` | web/src/connection.ts:335-347 | told to wait, and having waited, the taker is granted |
| `Pacing.TokenBucket.Take` | terminal/terminal.go:594-610 | a token if there is one after refilling to the burst, else how long until there is |
| `PageBudget.CeilingNeverRisesExactly` | web/src/connection.ts:1107-1121 | the adaptive ceiling never rises if and only if the page is at least 125 lines |
| `PageBudget.ThreeTimeoutsAtMost` | web/src/connection.ts:1032-1170 | with a page up to 1007 lines at most three timeouts hit requests over 125 lines |
| `PageBudget.FewBigTimeouts` | web/src/connection.ts:1032-1170 | such timeouts are bounded by how often the ceiling can halve |
| `PageBudget.FourTimeoutsAt1008` | web/src/connection.ts:1032-1170 | a page of 1008 lines allows a fourth |
| `PageBudget.HistoryState.OnHistoryDataTimeout` | web/src/connection.ts:1107-1121 | half of what was asked, not below the floor, becomes the ceiling, and requests start over from the floor |
| `PageBudget.HistoryState.CorrelateHistoryReply` | web/src/connection.ts:1137-1170 | a contained reply doubles the page up to the ceiling, a stray one changes nothing |
| `StatusStream.StreamAgreesAfterSweep` | terminal/events.go:294-352 | when a sweep finishes, folding every event ever emitted gives the present fields of every live session it covered and nothing of any other, whatever was closed, renamed or reordered under way |
| `StatusStream.NewestIsDelivered` | terminal/events.go:366-433 | the newest notification a sweep has read is delivered when it finishes |
| `StatusStream.DeliveryRises` | terminal/events.go:366-433 | each session's notifications reach a listener in strictly rising order, over any run |
| `StatusStream.StatusTracker.SweepSession` | terminal/events.go:366-433 | an event is emitted exactly when a field changed or a notification is new |
| `StatusStream.StatusTracker.ComputeStatusNow` | terminal/events.go:457-496 | exit, then fresh latch, then progress, then latch, then idle |
| `StatusStream.LatchHolds` | terminal/events.go:457-540 | what is latched is shown through any looks at which the program makes no claim and no notification is new, paused or not |
| `StatusStream.ClaimClears` | terminal/events.go:457-540 | progress 1, 2 or 3 shows at once and clears the latch, and from then on progress alone is shown until a notification is new |
| `StatusStream.NewsOutranks` | terminal/events.go:457-560 | a notification the classifier knows shows at once, over any progress, and is latched |
| `StatusStream.ExitOutranks` | terminal/events.go:457-466 | an exited program shows nothing else, its latch untouched |
| `StatusStream.SweepLooks` | terminal/events.go:366-433 | a sweep leaves the latch and cursor these speak of, whatever it emits |
| `StatusStream.FirstTitleShows` | terminal/session_manager.go:233-244 | the title is the first there is of the user's, the program's, the client's and the automatic one |
| `StatusStream.StatusTracker.ApplyNotification` | terminal/events.go:547-560 | a notification is classified once, and latches only if the classifier answers |
| `Sessions.SessionManager.SetSessionOrder` | terminal/session_manager.go:528-548 | accepts exactly the lists that name every live session once; anything else changes nothing |
| `Sessions.SessionManager.Create` | terminal/session_manager.go:355-395 | the session goes to the back, and the order still names every live session once |
| `Sessions.SessionManager.Close` | terminal/session_manager.go:625-640 | the session leaves set and order, the gap closed; an unknown id changes nothing |
| `Sessions.SessionManager.MaybeReap` | terminal/session_manager.go:1044-1062 | with no client and the idle window passed every session goes, else none |
| `Sessions.WithoutEnumerates` | terminal/session_manager.go:487-491 | closing the gap of one id leaves an order of all the others |
| `Sessions.ServedInDisplayOrder` | terminal/session_manager.go:439-483 | however the set is gathered, sorting it by rank, age and id serves exactly the display order |

## Left out

- Sockets, PTY, process handling, HTTP, logging, origin checks and timers: only in-order channels that may lose a suffix, and atomic steps, remain. A failed socket write is a detach.
- JSON text: controls are a datatype with an encoder and a decoder that inverts it and never starts with a NUL.
- The URL expression: its matches are a given list, sorted and disjoint, over the joined text.
- Character widths: any function into 0, 1 or 2. `VtAutowrap` and `PrintedLinks` print widths 1 and 2, runes of no width left out.
- Cursor style, visibility and blink: the builder does not compare them, so no claim about them could be kept. The bell is not part of the picture; `DeliverySignals.BellRidesOnce` is what is kept of it.
- The client's line store and renderer: the client is a map from absolute index to row with a window. The store's refusal of scroll frames while its alternate flag is set is not modelled; the order of window and replay in a resume is.
- Messages are delivered as values in the output machine; that frames survive encoding is `WireCodec`'s round trip, which truncates strings past 65535 bytes as the encoder does.
- Replies to history requests inside the output machine: they only add committed lines under their own index. `Paging` states what they hold.
- `uint64` counters are unbounded naturals; the codec states the eight-byte bound it needs.
- A server restart (a new boot epoch) in the input machine: it resets the client's ledger as the loss flag does.
- InputProtocol.ExactlyOnce: starts at a session's first connection; a reloaded page that meets a ledger with a count is `InputHazards.ReloadExactly`. The two windows the protocol does not fence (input between open and acknowledgement, late bytes of a superseded socket) are steps the machine does not take, given their exact consequence in `InputHazards`.
- VtInvariant.TerminalsStayWellFormed: assumes no resize of an alternate screen to or below the saved scroll top; without it the claim is false, by `DeepShrinkBreaks`. `VtTerminal.RunTerminal` assumes the same.
- VtTerminal.Terminal.Write: parses the whole write before it draws; the program draws each event as it is parsed, which comes to the same because parsing never looks at the screen.
- PrintedLinks.PrintedTextIsOneChain: is about text printed from a fresh screen; a chain of more than four rows is scanned in a window around each row, which `WireLinks.BoundChain` gives exactly.
- VtStream.AbortedDcsDrawsNothing: device-control replies and their payloads have no effect on the modelled screen at all.
- New screens have at least one row and one column.
- RowStore does not model that the alternate rows stay aliased in a second field while they are shown, nor row capacity left over by appending.
- Rows that scroll off keep their cells and continuation flag; the runs stamped at that moment are `Wire` and `WireLinks` applied to them, not a field of the screen.
- Operating-system commands but for the pen's link, colours, titles, keyboard flags, mouse, mode reports, device attributes, rectangle checksums and clipboard content.
- Contrast adjustment and palettes: colours on the wire come from a given palette map.
- Sessions: ids are never reused; exit classification, titles' sanitising, the idle timer's clock and per-client subscriptions are inputs.
- StatusStream: one sweep at a time with its inputs read at its start; a listener that joins late receives the full view first, which is the fold's starting point.
- Paging.RetainedIsFetchable: is about indices below the largest safe integer of a browser, the request limit in the code.
- Pacing: real arithmetic in place of floating point; the server's bucket starts full at the first arrival.
