# The front door and its socket, verified

A Dafny model of the PostgreSQL-wire front door (package `frontdoor`) and of the
daemon's self-healing unix socket (package `app`), with proofs of what they keep.
`dafny verify dfyconfig.toml` checks all of it.

| file | models |
|---|---|
| `Framing.dfy`, `FrameReader.dfy`, `PassThrough.dfy` | the framing machine, the reader object around it, and what the decoder receives through it |
| `GeneralLane.dfy`, `Accounting.dfy` | the shared output budget and the accountant that draws on it |
| `Session.dfy`, `SessionLog.dfy`, `SessionInvariant.dfy`, `SegmentLane.dfy`, `Sessions.dfy` | the session loop as steps, and any number of sessions interleaved over one lane |
| `SessionProgress.dfy`, `SessionStall.dfy`, `SessionsEnd.dfy` | what ends a session, arms its discard, is told to its client or charged to it; the clock it waits under; that all can end |
| `Throttle.dfy`, `Admission.dfy` | the per-source failure window, the accept-time counters and tickets |
| `AcceptToken.dfy`, `AcceptBarrier.dfy`, `AcceptProgress.dfy` | the accept token, the shutdown protocol of the listener, and that it is never stuck |
| `UnixSocket.dfy`, `SocketProgress.dfy` | the socket's watcher, Accept, Close and Cleanup against a sweeper and other daemons, and that each can finish |
| `WireText.dfy`, `StartupOptions.dfy`, `StartupParams.dfy`, `StartupPolicy.dfy`, `RawStartup.dfy` | startup parameters and the `options` string |
| `NameConstraints.dfy`, `CertNames.dfy`, `StringSort.dfy` | dNSName subtrees, the names on a certificate, and their order |
| `DemandWake.dfy`, `DemandProgress.dfy` | reclaiming an idle session |
| `Optional.dfy` | a value that may be missing |

Objects whose methods update fields are classes (`FrameReader`, `GeneralLane`,
`OutputAccountant`, `SegmentLane`, `FailureWindow`, `Admitter`, `Ticket`,
`AcceptToken`); each method is proved against a function of the old state. Protocols
between goroutines are step machines: a step that is not enabled leaves the state
alone, so a run is any sequence of steps, and the theorems hold for all of them. The
engine, the socket, the file system and the clock are nondeterministic; lower-casing
and the reading and printing of addresses are parameters. A session's log records what
was received, what reached the engine, every message the engine emitted and whether it
was passed on, and how the engine answered; the promises about a session are stated on
that log. A panic inside the announcement of a grant leaves its engine call unwinding,
after which only the recovery can follow.

## Where the code falls short of its own account

Each of these has a concrete run or input, next to the exact condition under which
the promise does hold.

- A lane reservation can outlive its session. `session_extended.go:203-209` writes a
  topped-up figure back only after the engine's Sync returns, and on every drive
  `session_loop.go:1823-1831` calls the host back between the lane's grant and writing
  it down. A panic in that Sync, or in that callback, is recovered at
  `listener.go:858-884` and leaves the difference counted in the lane for ever:
  `Sessions.LeakWitness`, `Sessions.QueryLeakWitness`. `Sessions.LeaksExactly` shows
  these two moves are the only leaks and how much each leaks, and
  `Sessions.LaneReturnsToZero` that when all sessions have ended the lane counts
  exactly that, and zero exactly when neither happened.
- A drive that starts holding less than the watermark (a Flush on a segment that has
  reserved nothing) can have more output pending than it has reserved:
  `Sessions.UncoveredRun` reaches 108 bytes pending with 100 held, and
  `Accounting.CoveredExactlyFromWatermark` says from which starts it cannot happen.
- The lane's floor is meant to give every session up to the cap a working set
  (`general_lane.go:210-241`). A session can need two, its segment's and its query's:
  in `Sessions.TwoWorkingSetsWitness` the only session of a validated lane has its own
  Query refused. `Sessions.QueryRunsExactly` and `Sessions.FloorAdmitsEverySession`
  say when a query runs.
- Close ends the connections in the live set (`listener.go:777-785`), which is said
  to make Close bounded. A handler that lists its connection after that moment is
  missed and Close waits on its open socket: `AcceptBarrier.LateHandlerWitness`. A
  connection still served is open exactly when the state before that moment did not
  list it: `AcceptBarrier.SweepReaches`.
- `ownSocket` turns unlink-on-close off only after its chmod (`socket.go:111-116`).
  When the path was swept the chmod fails, and closing the candidate unlinks by name
  whatever is there by then, another daemon's socket included:
  `UnixSocket.ClosedByNameWitness`. The pin looks at the path twice, and can pin a
  newcomer's file: `UnixSocket.PinnedForeignWitness`. `UnixSocket.HarmlessExactly`
  decides it for every step: a removal is harmless exactly when a live hold guards the
  number it compares, a close by name never is; `UnixSocket.OnlyOwnFilesUnlinked`
  lifts that to whole runs.
- An offer to be reclaimed is said to stand only while nothing is in flight
  (`session_loop.go:173-185`). It is opened only then, but bytes that arrive during the
  wait arrive inside it: `DemandWake.ReservedMidMessage`. Nothing is framed and nothing
  is under way exactly while no byte has arrived: `DemandWake.OfferHonest`.
- Pruning a failure list from the front agrees with counting it exactly when its
  stamps are in order, which is why the clock is assumed not to run backwards (it is
  read before the lock, `admission.go:295`): `Throttle.PruningExactlyWhenAscending`,
  and `Throttle.OutOfOrderWitness` for two stamps that throttle a source too soon.
- A ticket with an empty host is counted against its source and never uncounted
  (`admission.go:223-227, 272-279`); the host is empty for a peer whose address prints
  as nothing before its port (`admission.go:346-351`). `Admission.EmptyHostWitness`
  runs it on the default caps: one connection leaves a count of one with nothing live,
  and as many as the per-source cap shut that source out for good. The count is the
  live connections in every other case: `Admission.Admitter.SourceCountExactly`.
- A reservation found by the session loop's deferred close is to be recorded and then
  finalised (`session_loop.go:85-97`). The record is a callback of the host, and a panic
  in it skips the finalising: `DemandWake.LostReservationWitness`. In every other run
  each reservation is finalised once: `DemandWake.FinalisedOnce`.
- Cleanup closes the socket before it removes the file (`app/socket.go:238`), but a
  Close that had begun before it may still have the listener open when Cleanup is done:
  `UnixSocket.OvertakenWitness`. `UnixSocket.PublishedClosed` says it is that case alone.
- A host that is no address but normalizes to one's printed form marks that address
  as requested (`certgen.go:249-275`): `CertNames.DottedAddressWitness` with the host
  `127.0.0.1.`, and `CertNames.RequestedExactly` for all hosts.

## Model

| member | source | states |
|---|---|---|
| `Framing.ScanChunks` | frontdoor/frame_reader.go:266-322 | scanning a stream in two pieces reaches the state, queued headers and fault of scanning it whole, wherever it is cut |
| `Framing.ScanIsParse` | frontdoor/frame_reader.go:266-322 | for every byte string the queued headers, the fault and the mid-message answer are those of an independent frame-by-frame parse |
| `Framing.ParseEncoded` | frontdoor/frame_reader.go:266-322 | parsing encoded frames, each with its length written in base-256 digits, gives their own headers back, in order |
| `Framing.LengthReadBack` | frontdoor/frame_reader.go:282-308 | a length below 2^32, written as four base-256 digits with the most significant first, is read back as itself |
| `Framing.LengthWrittenBack` | frontdoor/frame_reader.go:282-308 | and any four bytes are the digits of what they are read as |
| `Framing.LengthOrder` | frontdoor/frame_reader.go:282-308 | the first byte in which two length fields differ decides which is the larger, as it does for the numbers |
| `Framing.MidMessageExact` | frontdoor/frame_reader.go:336-338 | midMessage holds exactly when the bytes consumed are not a whole number of frames |
| `FrameReading.Socket.Read` | frontdoor/frame_reader.go:245-258 | a read returns some prefix of what is left, of any size, or fails for good |
| `FrameReading.FrameReader.TakeType` | frontdoor/frame_reader.go:269-281 | the type arm leaves the machine where stepping it one byte would |
| `FrameReading.FrameReader.TakeLength` | frontdoor/frame_reader.go:282-308 | the length arm leaves the machine where stepping it byte by byte would, the bad length included |
| `FrameReading.FrameReader.TakeBody` | frontdoor/frame_reader.go:309-319 | the body arm leaves the machine where stepping it byte by byte would |
| `FrameReading.FrameReader.Scan` | frontdoor/frame_reader.go:266-322 | the loop over runs computes the byte-at-a-time meaning and reports its fault |
| `FrameReading.FrameReader.PeekHeader` | frontdoor/frame_reader.go:182-187 | the answer is the header the independent parse of every byte taken so far has next, and there is none exactly when that parse has no more |
| `FrameReading.FrameReader.ConsumeHeader` | frontdoor/frame_reader.go:196-203 | one header leaves the queue, if there is one, and the reader stays aligned with the stream |
| `FrameReading.FrameReader.WaitHeader` | frontdoor/frame_reader.go:356-386 | returns with a header framed, or with a fault or a failed socket; nothing is delivered or discarded by waiting |
| `FrameReading.FrameReader.SkipFrame` | frontdoor/frame_reader.go:394-402 | the refused frame's header is popped and exactly its bytes are owed to the discard |
| `FrameReading.FrameReader.DrainSkip` | frontdoor/frame_reader.go:415-451 | exactly the refused bytes are discarded and what follows them stays owed |
| `FrameReading.FrameReader.Allow` | frontdoor/frame_reader.go:458-458 | exactly one frame's bytes become deliverable |
| `FrameReading.FrameReader.Serve` | frontdoor/frame_reader.go:228-259 | what is served is the next bytes of the stream, the buffer before the socket |
| `FrameReading.FrameReader.Read` | frontdoor/frame_reader.go:208-259 | a bounded read delivers only bytes that were allowed, in stream order |
| `PassThrough.Deliver` | frontdoor/session_loop.go:238-251 | one admitted frame reaches the decoder whole and nothing else moves |
| `PassThrough.Refuse` | frontdoor/session_loop.go:222-237 | one refused frame leaves the wire whole and contributes no byte |
| `PassThrough.Abandon` | frontdoor/session_loop.go:243-251 | a socket that fails before a header hands on fewer than five bytes |
| `PassThrough.Turn` | frontdoor/session_loop.go:181-251 | one pass over one frame: delivered whole, discarded whole, or the socket failed |
| `PassThrough.Pump` | frontdoor/session_loop.go:181-251 | for every well-formed stream, chunking, failure point and sequence of decisions the decoder receives exactly the admitted frames in order, and the delivered count is theirs |
| `GeneralLane.GeneralLane.ReserveWaiting` | frontdoor/general_lane.go:84-113 | the waiting form, at the moment its wait ends, grants exactly what fits |
| `GeneralLane.ExactWhenPaired` | frontdoor/general_lane.go:84-134 | over any reservations and releases the lane stays within its limit, and its count is what is owed at every moment if and only if every release is paired with a reservation |
| `Accounting.OutputAccountant.EmitMessage` | frontdoor/session_loop.go:1771-1861 | one message moves the account and the lane as the specification does, on every branch |
| `Accounting.EmitFate` | frontdoor/session_loop.go:1771-1861 | each message is passed on or meets one named cause: it could not be framed, passed the cap, found the lane full or a write failing; and the account grows by exactly what is passed on |
| `Accounting.EmitBuffers` | frontdoor/session_loop.go:1803-1861 | a message that outgrows the reservation or fills up the watermark waits alone, covered by what is held; nothing waits while the lane's refusal is dealt with |
| `Accounting.FlagsExactly` | frontdoor/session_loop.go:1771-1861 | over a whole drive each flag of the account is set if and only if some message met its cause |
| `Accounting.CleanExactly` | frontdoor/session_loop.go:1771-1861 | the account is clean if and only if every message of the drive was passed on, and then what was forwarded is the sum of all sizes given |
| `Accounting.DriveBounds` | frontdoor/session_loop.go:1746-1861 | after every message of a drive: forwarded is within the output cap, pending is below the watermark or one frame, and covered when the drive started at the watermark |
| `Accounting.CoveredExactlyFromWatermark` | frontdoor/session_loop.go:1816-1861 | pending is always within the reservation if and only if the drive starts at the watermark (less one byte) or two frames cannot fit under it |
| `Accounting.Uncovered` | frontdoor/session_loop.go:1816-1861 | for every start the condition excludes, two frames that leave more pending than is held |
| `SegmentLane.SegmentLane.Charge` | frontdoor/session_extended.go:522-531 | adds a charge, saturating |
| `SegmentLane.SegmentLane.AdmitFrame` | frontdoor/session_extended.go:409-471 | only extended frames but Sync are counted; one is let in only by a segment that is not discarding, counted and charged, within both caps; a living session that keeps one out is discarding and stays so |
| `SegmentLane.SegmentLane.Reserve` | frontdoor/session_extended.go:571-592 | takes one working set per segment: what the lane gains the segment gains, the lane stays within its limit, a segment that holds something asks for nothing, and a refusal means there was no room |
| `SegmentLane.SegmentLane.ReleaseTo` | frontdoor/session_extended.go:598-603 | gives back exactly what is held, once; a second call changes nothing |
| `SegmentLane.SegmentLane.ReserveThenRelease` | frontdoor/session_extended.go:571-603 | a segment that takes its working set and gives it back leaves the lane where it was |
| `SessionLog.ReadyNeverOutnumbers` | frontdoor/session_loop.go:436-485 | a log whose cycles are answered properly has no prefix with more readiness than frames that owe it |
| `SessionLog.HonestAtPrefix` | frontdoor/session_loop.go:625-685 | in an honest log readiness without an error of the front door's own stands for a frame the engine ran without failing, everything it emitted passed on |
| `SessionLog.NoEngineWorkUntilSync` | frontdoor/session_extended.go:278-345 | in a quiet log, between trouble (the target's error or a message not passed on in a stream, an extended frame refused or failed, a segment past its caps) and the next call on the query executor lies the client's Sync; but the status may be read, before the next frame, to report it |
| `SessionInvariant.FrameKept` | frontdoor/session_loop.go:194-304 | every pass over a frame keeps the session invariant: readiness, discard, caps and reservation |
| `SessionInvariant.AdmitKept` | frontdoor/session_extended.go:409-471 | an admitted extended frame is counted and charged within the caps before the engine sees it |
| `SessionInvariant.RunExtendedKept` | frontdoor/session_extended.go:55-187 | running an extended frame keeps the invariant, its second-stage charge and its reservation included |
| `SessionInvariant.EmitKept` | frontdoor/session_loop.go:1771-1861 | every engine message keeps the invariant |
| `SessionInvariant.HeldGrows` | frontdoor/session_loop.go:1816-1831 | a top-up moves the lane by exactly what the account gains |
| `SessionInvariant.FinishQueryKept` | frontdoor/session_loop.go:625-685 | a query that returns, in every way it can, leaves exactly one readiness or an ending session |
| `SessionInvariant.FinishStreamKept` | frontdoor/session_extended.go:653-731 | Execute and Flush send no readiness, and a session that goes on is discarding if and only if a message carried the target's error, one was not passed on, or the call failed |
| `SessionInvariant.FinishSyncKept` | frontdoor/session_extended.go:211-269 | a Sync sends at most one readiness, and one that is refused leaves the segment discarding again |
| `SessionInvariant.FinishKept` | frontdoor/session_extended.go:188-269 | every engine answer keeps the invariant, on every drive |
| `Sessions.LaneLedger` | frontdoor/general_lane.go:84-134 | over every interleaving of any number of sessions, panics inside a grant's announcement included, `used` is exactly what live statements and segments hold plus what leaked, and never exceeds the limit |
| `Sessions.ReleasesAreBacked` | frontdoor/general_lane.go:119-134 | the clamp at zero is never reached in any run |
| `Sessions.LeaksExactly` | frontdoor/session_loop.go:1816-1831 | a step leaks if and only if it is a panic in a topped-up Sync, or a panic of the callback that announces a grant on any drive; and by exactly what was not written back |
| `Sessions.NoLeakMeansNone` | frontdoor/session_extended.go:203-209 | what is leaked is the sum over the run's leaking moves, and nothing if and only if there were none |
| `Sessions.LaneReturnsToZero` | frontdoor/session_loop.go:597-624 | once all sessions have ended the lane counts exactly what the leaking moves had not written back, and is at zero if and only if there were none |
| `SessionsEnd.EverySessionCanEnd` | frontdoor/session_loop.go:69-97 | from every moment of every run every session can end, and the lane then counts what leaked on the way and nothing else |
| `SessionsEnd.PanicEnds` | frontdoor/listener.go:858-884 | a panic, wherever it falls, ends its session with nothing more said to the client or asked of the engine |
| `Sessions.LeakWitness` | frontdoor/session_extended.go:203-209 | a run that ends every session and leaves the lane above zero |
| `Sessions.QueryLeakWitness` | frontdoor/session_loop.go:1823-1831 | an ordinary query whose grant's announcement panics: the session ends and the lane stays above zero |
| `Sessions.ReadinessInEveryRun` | frontdoor/session_loop.go:284-304 | at every prefix of every run readiness never outnumbers Query, FunctionCall and Sync; a waiting session has had exactly what each frame is owed |
| `Sessions.SuccessInEveryRun` | frontdoor/session_loop.go:625-685 | in every run readiness without an error of the front door's own stands for a frame the engine ran without failing, with everything it emitted passed on: a Query that ends in plain success has lost nothing |
| `Sessions.DiscardInEveryRun` | frontdoor/session_extended.go:278-345 | in every run, after trouble the query executor is called for nothing, statement, status or portal, before the client's Sync reaches it; but the status may be read, before the next frame, to tell the client what was withheld; offering the receive window to the lease scheduler is not such a call |
| `Sessions.DiscardingExactly` | frontdoor/session_extended.go:278-345 | in every run a waiting session is discarding if and only if there was trouble and no Sync has reached the engine since |
| `Sessions.StreamEndsExactly` | frontdoor/session_extended.go:653-731 | in every run a session that goes on after an Execute or a Flush is discarding if and only if the log has the target's error, a message not passed on or a failed call in it |
| `Sessions.CapsInEveryRun` | frontdoor/session_extended.go:409-471 | in every run the engine sees at most the caps' worth of frames and bytes between two Syncs |
| `Sessions.SaturationUnreachable` | frontdoor/session_extended.go:502-531 | in every run both charges of the next frame fit the byte counter |
| `Sessions.ProductionConfigIsValid` | frontdoor/session_extended.go:347-395 | the production caps are among those the theorems cover |
| `Sessions.QueryOutputReserved` | frontdoor/session_loop.go:597-624 | in every run a simple query's pending output is reserved |
| `Sessions.UncoveredRun` | frontdoor/session_extended.go:644-652 | a session run, Flush and two engine messages, with 108 bytes pending and 100 held |
| `Sessions.QueryRunsExactly` | frontdoor/session_loop.go:597-624 | in every run a query reaches the engine if and only if what live statements and segments hold, leaks included, leaves room for a working set |
| `Sessions.FloorAdmitsEverySession` | frontdoor/general_lane.go:210-241 | on a validated lane that condition in bytes; and it holds whenever fewer sessions than the cap hold anything and none holds more than one working set |
| `Sessions.TwoWorkingSetsWitness` | frontdoor/general_lane.go:210-241 | the only session of a validated lane has its own Query refused after a Parse |
| `GeneralLane.FloorIsFullOccupancy` | frontdoor/general_lane.go:210-241 | a lane is valid if and only if it is at most four gigabytes and every session there may be, 256 unless the cap says otherwise, can hold one working set at once |
| `SessionProgress.TypesExactly` | frontdoor/session_dispatch.go:145-166 | a header is well typed if and only if some message of the protocol goes by its byte, and the byte alone says which kind it is and whether it belongs to a segment |
| `SessionProgress.SyncAlwaysServed` | frontdoor/session_extended.go:188-215 | a Sync that arrives reaches the engine while discarding, past the caps and on a full lane alike, and takes nothing of the lane |
| `SessionProgress.QueryServed` | frontdoor/session_loop.go:597-624 | a Query that finds room takes its working set, beside its segment's, and reaches the engine with it |
| `SessionProgress.SegmentFrameServed` | frontdoor/session_extended.go:55-187 | a segment frame within both caps that finds room reaches the engine, charged for what was declared and decoded |
| `SessionProgress.FrameArmsExactly` | frontdoor/session_extended.go:278-345 | a frame leaves its session discarding if and only if it takes the segment past its caps or the engine refuses it |
| `SessionProgress.FrameEndsExactly` | frontdoor/session_loop.go:181-304 | a frame ends its session if and only if it is too large, its body cannot be read, it is a farewell or out of place, it finds no room for a segment, it is refused for good, or an answer it is due cannot be given |
| `SessionProgress.FrameToldExactly` | frontdoor/session_extended.go:278-345 | a session that goes on after a frame has sent its client one error if the frame was refused, with the status read and readiness sent where the engine will not send it, and nothing otherwise |
| `SessionProgress.ChargedForEverything` | frontdoor/session_extended.go:502-519 | the second charge is the sum over every piece the decoding allocates: two names, and one piece for each parameter, type and format code |
| `SessionProgress.CallEndsSessionExactly` | frontdoor/session_loop.go:625-685 | an engine call ends its session if and only if its output could not be written or framed, the refusal is fatal, a status that is due is none, or a write that is due fails |
| `SessionProgress.CallToldExactly` | frontdoor/session_loop.go:625-685 | a session that goes on after an engine call has sent one error if output was withheld or the call failed and none otherwise, has read the status only where it had to, and has sent exactly the readiness that is due |
| `SessionStall.StallExactly` | frontdoor/session_extended.go:775-797 | in every run a waiting session is under the stall budget if and only if an Execute reached the engine and neither a Sync nor a Flush has collected its output since |
| `Throttle.Prune` | frontdoor/admission.go:330-339 | drops exactly the leading stamps at or before the cutoff |
| `Throttle.PrunedCounts` | frontdoor/admission.go:305-313 | pruning what is stored gives exactly what counting the whole history counts |
| `Throttle.AtLeast` | frontdoor/admission.go:429-440 | at least k stamps are live exactly when the k-th from the end is |
| `Throttle.CountsLastMinute` | frontdoor/admission.go:305-313 | what the window counts is the failures less than sixty seconds old |
| `Throttle.PruningExactlyWhenAscending` | frontdoor/admission.go:330-339 | pruning agrees with counting at every cutoff if and only if the stamps are in order |
| `Throttle.OutOfOrderWitness` | frontdoor/admission.go:330-339 | two stamps out of order for which the stored decision and the plain one differ |
| `Throttle.FailureWindow.NoteFailure` | frontdoor/admission.go:293-303 | the history gains one failure, the stored window still represents it, and beyond 4096 hosts nothing expired is kept for any of them |
| `Throttle.FailureWindow.IsThrottled` | frontdoor/admission.go:305-313 | the decision is "at least the limit in the last minute" over the full unpruned history |
| `Throttle.FailureWindow.Sweep` | frontdoor/admission.go:316-326 | nothing expired is left for any host and no decision changes |
| `Throttle.FailureWindow.Remaining` | frontdoor/admission.go:429-440 | the host is throttled at every instant before now plus the wait and at none from then on |
| `Throttle.FailureWindow.ThrottledSources` | frontdoor/admission.go:361-371 | the sources listed are exactly those the definition throttles |
| `Admission.ResolveCaps` | frontdoor/listener.go:548-620 | resolved caps have a control lane that covers every connection, without overflow, and a throttle only ever raised |
| `Admission.ExplicitExactly` | frontdoor/listener.go:578-619 | limits spelled out are taken as given, workers clamped to the anonymous allowance, if and only if the throttle is not weakened, the allowance is within the whole and every connection's lane is there and fits 64 bits |
| `Admission.ResolvesExactly` | frontdoor/listener.go:554-577 | a negative limit is refused, and any other configuration is judged as the one with its defaults spelled out |
| `Admission.OneSourceExactly` | frontdoor/admission.go:127-143 | one source may hold the smaller of fifty connections and all there are |
| `Admission.Admitter.VerdictExactly` | frontdoor/admission.go:196-228 | in terms of the tickets there are: a connection is admitted if and only if no bound is met, and otherwise the first bound met is told |
| `Admission.Admitter.Admit` | frontdoor/admission.go:172-194 | reserves everything or nothing, for the first bound met; on a lane that covers the connection cap the lane never refuses |
| `Admission.Admitter.AdmitLocked` | frontdoor/admission.go:196-228 | every counter is still what the live tickets imply and every cap holds |
| `Admission.Admitter.Withdraw` | frontdoor/admission.go:249-280 | every counter falls by one ticket's share and no zero entry remains |
| `Admission.OneMoreSource` | frontdoor/admission.go:223-227 | one more ticket from a host raises its count alone |
| `Admission.OneLessSource` | frontdoor/admission.go:272-279 | one ticket fewer lowers its count alone, and the last one deletes the entry |
| `Admission.Ticket.LeavePreAuth` | frontdoor/admission.go:233-246 | the anonymous slot is given back at most once |
| `Admission.Ticket.Release` | frontdoor/admission.go:249-280 | everything is given back exactly once however often it is asked; only an empty host stays charged |
| `Admission.Admitter.SourceCountExactly` | frontdoor/admission.go:223-279 | the count against a source is its live connections if and only if it has a name or none of its connections has ended |
| `Admission.EmptyHostWitness` | frontdoor/admission.go:272-279 | on the default caps a connection of an empty host that comes and goes leaves a count of one with nothing live, and as many as the per-source cap leave that source refused with nothing live |
| `AcceptTokens.AcceptToken.Track` | frontdoor/accept_token.go:91-94 | the connection is listed and the token owns its removal |
| `AcceptTokens.AcceptToken.Discharge` | frontdoor/accept_token.go:105-127 | exactly once: untrack, close, announce, release the ticket, then the registration |
| `AcceptBarrier.ActBalances` | frontdoor/listener.go:682-743 | each act's own increments and decrements are exactly the change in the connection's registration and ticket |
| `AcceptBarrier.ServeKeeps` | frontdoor/listener.go:682-743 | every act of a connection's owner, moving each counter where the code does, keeps the ledger and never raises the wait group |
| `AcceptBarrier.AcceptKeeps` | frontdoor/listener.go:1458-1471 | registration under acceptMu keeps the ledger |
| `AcceptBarrier.PressKeeps` | frontdoor/pressure_loop.go:59-76 | so does the pressure loop's |
| `AcceptBarrier.CloseKeeps` | frontdoor/listener.go:764-787 | so does every step of every Close caller |
| `AcceptBarrier.LedgerInEveryRun` | frontdoor/listener.go:643-743 | in every run the counter is the handlers alive, the connections and lane are the tickets held, and each connection gives back each thing at most once and in order |
| `AcceptBarrier.NeverRisesAfterBarrier` | frontdoor/listener.go:764-773 | once any Close has crossed the barrier the counter never rises and no connection is counted |
| `AcceptBarrier.CloseReturnsQuiet` | frontdoor/listener.go:764-787 | when a Close has returned, and ever after: counter, connections and control lane at zero, every connection settled, no pressure loop |
| `AcceptBarrier.SweepReaches` | frontdoor/listener.go:777-785 | in every run through a sweep, a connection served at the end has an open socket if and only if it had not arrived or was not listed in the state before the sweep |
| `AcceptBarrier.LateHandlerWitness` | frontdoor/listener.go:809-813 | such a connection, with a Close at the barrier |
| `AcceptProgress.SomethingMoves` | frontdoor/listener.go:643-787 | in every reachable state with a Close that has not returned some move of the server's own brings the end nearer |
| `AcceptProgress.EveryCloseCanReturn` | frontdoor/listener.go:764-787 | from every moment of every run the server's own moves can bring every Close back, with everything quiet |
| `AcceptProgress.CountedExactlyWhileOpen` | frontdoor/listener.go:1458-1471 | a connection is counted if and only if the listener is open, and on a closed one the attempt leaves no trace |
| `AcceptProgress.PressureStartsWhileOpen` | frontdoor/pressure_loop.go:59-76 | the pressure loop starts under the same condition, once |
| `AcceptProgress.TurnedAwayExactly` | frontdoor/listener.go:698-732 | a connection that is turned away leaves nothing behind: a ticket taken for it is given back once, its socket closed, its registration ended |
| `UnixSocket.NextKeeps` | app/socket.go:146-247 | every step of every actor keeps the socket's invariant |
| `UnixSocket.HoldsReleasedOnce` | app/socket.go:168-247 | no inode hold is released twice, and each exactly once when Cleanup has finished |
| `UnixSocket.NothingPublishedAfterClose` | app/socket.go:190-222 | after Close the published listener and its identity never change |
| `UnixSocket.OthersClosed` | app/socket.go:186-205 | every candidate and every replaced listener is closed by the time Cleanup has finished |
| `UnixSocket.PublishedClosed` | app/socket.go:211-247 | when Cleanup has finished the published listener is open if and only if another Close had marked the socket closed before Cleanup began and has not closed it since |
| `UnixSocket.OvertakenWitness` | app/socket.go:211-247 | a run in which Cleanup finishes and the listener is open |
| `UnixSocket.SwapNeverSurfaces` | app/socket.go:146-163 | an Accept returns a closed listener's error only when the socket was closed |
| `UnixSocket.Heals` | app/socket.go:168-209 | from every open state of every run with the path gone, the watcher's own steps end with the daemon reachable: a new listener published and open, its file at the path and pinned, every other listener closed |
| `UnixSocket.HealsFromAnywhere` | app/socket.go:168-209 | and so they do whatever the watcher was in the middle of |
| `UnixSocket.SwapCompletes` | app/socket.go:190-209 | a candidate takes the published listener's place, the old one is closed and its hold let go |
| `UnixSocket.CandidatePublished` | app/socket.go:190-205 | whatever anyone does before a candidate's publish, on an open socket the publish makes it the published listener |
| `UnixSocket.AcceptComesBack` | app/socket.go:146-163 | an Accept caller blocked on the listener that is replaced comes back on the new one |
| `SocketProgress.DeliversExactly` | app/socket.go:146-163 | a connection is handed over by an open listener and by no other |
| `SocketProgress.AcceptCanReturn` | app/socket.go:146-163 | in every run on an open socket an Accept caller that was not turned away needs no one else to be on an open listener, which hands it the next connection |
| `SocketProgress.AcceptEnds` | app/socket.go:146-163 | in every run, once a closed socket's listeners are closed, every Accept caller can return its error within three steps of its own |
| `SocketProgress.HealthyIsLeftAlone` | app/socket.go:165-189 | while the path leads to the daemon its watcher changes nothing, however often it looks |
| `SocketProgress.CleanupCanFinish` | app/socket.go:224-247 | from every moment of every run a Cleanup that has begun can finish by the moves under way |
| `UnixSocket.OnlyOwnFilesUnlinked` | app/main.go:1756-1775 | no step of a run can be made to unlink another daemon's socket if and only if every removal was guarded and nothing was closed by name; and then none is unlinked |
| `UnixSocket.RemovalSafeExactly` | app/main.go:1728-1775 | in every reachable state and for every identity: removal by it spares others whatever the world does first, if and only if a live hold guards the number it compares |
| `UnixSocket.HarmlessExactly` | app/socket.go:107-142 | for every step, the three that unlink included: harmless whatever the world does first if and only if the identity it removes by is guarded, and a close by name never |
| `UnixSocket.NameAlwaysFalls` | app/socket.go:111-116 | from every state a newcomer can be at the path before a close by name |
| `UnixSocket.FaithfulRunsGuarded` | app/main.go:1756-1775 | with faithful pins and working chmods every removal is guarded, and Cleanup leaves no file of ours |
| `UnixSocket.ClosedByNameWitness` | app/socket.go:107-142 | a failed chmod ends with another daemon's socket unlinked |
| `UnixSocket.PinnedForeignWitness` | app/main.go:1697-1714 | a newcomer pinned in our place is removed as ours |
| `StartupOptions.OptionsFields` | frontdoor/params.go:540-580 | splits exactly as the recursive reading of the text does, refusing a trailing backslash |
| `StartupOptions.FieldsOfText` | frontdoor/params.go:540-580 | every list of non-empty fields, over any bytes and any whitespace, reads back as written |
| `StartupOptions.ParseOptionsGUCs` | frontdoor/params.go:485-517 | reads the settings the fields spell, or refuses the whole text |
| `StartupOptions.OptionsRoundTrip` | frontdoor/params.go:485-580 | settings with non-blank names free of '=' and any values, in any of the three spellings, parse back to themselves |
| `StartupOptions.ParseOptionsExactly` | frontdoor/params.go:485-517 | a text is understood if and only if its fields spell a list of settings, and then it names exactly those |
| `WireText.FoldIdentifies` | frontdoor/params.go:88-96 | two names fold alike if and only if they agree byte by byte up to the case of the 26 ASCII letters |
| `WireText.SpaceWidthExactly` | frontdoor/params.go:485-517 | a text begins with a whitespace character of that many bytes if and only if it begins with the UTF-8 encoding of one of Unicode's whitespace characters |
| `WireText.TrimExactly` | frontdoor/params.go:485-517 | trimming leaves exactly the text between two blanks that neither begins nor ends with whitespace |
| `StartupOptions.SpaceExactly` | frontdoor/params.go:540-543 | options are split at exactly those whitespace characters that are one byte |
| `StartupParams.CanonicalizeOne` | frontdoor/params.go:109-127 | in any map order: refuses exactly when a name has two spellings, otherwise rewrites that key alone |
| `StartupParams.Canonicalize` | frontdoor/params.go:109-127 | both carved-out names, in any map order |
| `StartupParams.CanonicalJudged` | frontdoor/params.go:248-257 | a packet and its canonical form get one verdict and one set of settings |
| `StartupParams.TopLevel` | frontdoor/params.go:303-366 | the first pass, in any order, accepts exactly distinct names with acceptable values and collects exactly the settings |
| `StartupParams.OptionLevel` | frontdoor/params.go:368-413 | the second pass accepts exactly the options that fit, and writes an application_name where the top-level value lives |
| `StartupParams.CheckStartupParams` | frontdoor/params.go:227-420 | accepts exactly the packets the policy accepts, whatever the map order, hands on exactly the settings they name, and leaves under application_name exactly the value they give it |
| `StartupParams.ApplicationNameKept` | frontdoor/params.go:368-413 | after an accepted packet application_name holds a value if and only if the packet gives it, at either level and in any spelling |
| `StartupParams.SpecialThroughFold` | frontdoor/params.go:697-713 | the two carved-out names are recognised through the fold and nothing else is taken for them |
| `StartupParams.Utf8Exactly` | frontdoor/params.go:320-345 | a client encoding is accepted if and only if it is, in any case and between blanks, utf8 or utf-8 |
| `StartupPolicy.AcceptedSettings` | frontdoor/params.go:227-420 | the settings are exactly the collectable names with their values byte for byte, none a spelling of a carved-out name, at most 64 |
| `StartupPolicy.AcceptedNamesDistinct` | frontdoor/params.go:258-290 | no two names of an accepted packet, top level and options together, are one name in two cases of its letters |
| `StartupPolicy.AcceptsExactly` | frontdoor/params.go:227-420 | the policy accepts exactly the packets that name a user and a database, give every name a value it may have, ask for at most 64 settings and give no name twice in any spelling |
| `StartupPolicy.CollectedExactly` | frontdoor/params.go:697-720 | the settings, name by name: what is asked for at the top level but protocol extensions, and what options ask for, extensions included; never one of the protocol's own names |
| `StartupPolicy.ValuesExactly` | frontdoor/params.go:303-413 | the values: no replication, no encoding but UTF-8 at either level, and options that can be read and ask for nothing of the protocol's own |
| `StartupPolicy.SpellingIrrelevant` | frontdoor/params.go:60-127 | the verdict and the settings do not depend on how a carved-out name is spelled |
| `StartupPolicy.PathIrrelevant` | frontdoor/params.go:368-413 | nor on the path: for any packet and any two options texts that differ in a carved-out setting, inserted anywhere, the second gets the verdict and settings the first gets with that name at the top level |
| `StartupPolicy.PathKeepsName` | frontdoor/params.go:368-413 | those two packets give application_name the same values |
| `RawStartup.DuplicateInBlock` | frontdoor/params.go:436-466 | reports the first key that repeats an earlier one in any case of its letters, and nothing else |
| `RawStartup.DuplicateStartupKey` | frontdoor/params.go:436-466 | finds a repeat if and only if there is one |
| `RawStartup.RawKeysOfEncoded` | frontdoor/params.go:436-466 | the keys of every encoded packet are read back in order |
| `RawStartup.RawKeysExactly` | frontdoor/params.go:436-466 | for every block, well formed or not: its keys are those of the whole pairs it begins with, as many as there are |
| `RawStartup.NothingLost` | frontdoor/params.go:422-435 | a packet without repeats loses no pair to the map, whose names are distinct |
| `NameConstraints.BelowIsLabelSuffix` | frontdoor/certgen.go:597-619 | for all names, suffix matching with a leading dot is label-list suffix matching (section 4.2.1.10 of RFC 5280) |
| `NameConstraints.DnsPermitted` | frontdoor/certgen.go:597-619 | permitted exactly when some normalized constraint's labels end the normalized name's, for any lower-casing |
| `NameConstraints.NormalizeExactly` | frontdoor/certgen.go:302-319 | a name is compared bare and in lower case, whatever whitespace is around it and with or without its root label |
| `NameConstraints.LeadingDotOff` | frontdoor/certgen.go:597-619 | a constraint means the same with a leading dot |
| `NameConstraints.IpPermitted` | frontdoor/certgen.go:621-628 | permitted exactly when some range contains the address |
| `NameConstraints.ContainsExactly` | frontdoor/certgen.go:621-628 | a range contains an address if and only if they are of one family and agree in each of its leading bits |
| `NameConstraints.PermittedRanges` | frontdoor/certgen.go:333-343 | the ranges vouch for exactly the addresses given |
| `CertNames.SplitHostNames` | frontdoor/certgen.go:232-300 | refuses exactly when the operator named nothing; otherwise every name once and in order, localhost and the two loopback addresses with them, and requested is exactly what the operator named |
| `CertNames.DressIsOff` | frontdoor/certgen.go:249-275 | whitespace and the brackets of a bind string are not part of what is named: an address is an address in them, and a name that name |
| `CertNames.AddressesInOrder` | frontdoor/certgen.go:249-296 | addresses are listed in the order in which they were first named, the loopback set last |
| `CertNames.ConstraintsPermit` | frontdoor/certgen.go:529-553 | passes exactly when every requested name can be vouched for |
| `CertNames.DropUnvouchable` | frontdoor/certgen.go:563-585 | keeps exactly the names that can be vouched for, in order, drops exactly the others, and reports the dropped ones sorted |
| `CertNames.DroppedUnrequested` | frontdoor/certgen.go:555-585 | after the check passes: kept and dropped partition the input, kept are vouched for, dropped were not requested |
| `CertNames.RequestedExactly` | frontdoor/certgen.go:249-275 | an address counts as requested exactly when a host named it or a DNS host normalizes to its printed form |
| `CertNames.DottedAddressWitness` | frontdoor/certgen.go:249-275 | the host 127.0.0.1. marks the loopback address as requested |
| `CertNames.LeafNames` | frontdoor/certgen.go:121-172 | a leaf from an existing CA: refused exactly when it must be, otherwise every name asked for is on it |
| `CertNames.VouchesExactly` | frontdoor/certgen.go:529-553 | a kind of name without constraints is vouched for whatever it is, a constrained one only by a constraint |
| `CertNames.NewCaVouchesExactly` | frontdoor/certgen.go:424-426 | a new CA vouches for exactly the names it was made for, what lies below them, and its own addresses |
| `CertNames.ReissueKeepsEverything` | frontdoor/certgen.go:121-172 | issuing again from a CA for the names it was made for refuses nothing asked for and drops no convenience |
| `StringSort.SortedPermutation` | frontdoor/certgen.go:298-298 | sorting gives the same strings, in order |
| `StringSort.NotAfterExactly` | frontdoor/certgen.go:298-298 | the order is that of the first byte in which two strings differ |
| `DemandWake.FinalisedOnce` | frontdoor/session_loop.go:85-97 | no reservation is finalised twice; when the loop has ended, by a panic or not, each has been finalised once if and only if no panic fell in the deferred close's callback |
| `DemandWake.LostReservationWitness` | frontdoor/session_loop.go:90-97 | a panic in the wait and one in the deferred close leave a reservation nothing finalises |
| `DemandWake.RecordHonest` | frontdoor/demand_wake.go:175-224 | a reclamation is recorded as delivered exactly when its client was told, and nothing is told after it is finalised |
| `DemandWake.WorksUnreserved` | frontdoor/session_loop.go:172-194 | a pass that goes on to a frame does so with the window shut and nothing reserved; a session is reserved at most once |
| `DemandWake.OfferHonest` | frontdoor/session_loop.go:160-194 | an open offer began at a frame boundary; nothing is framed and nothing is under way exactly while no byte has arrived since, and a message is under way exactly when what arrived is not whole frames |
| `DemandWake.ReservedMidMessage` | frontdoor/session_loop.go:160-194 | a session reserved after the first byte of a message |
| `DemandProgress.OfferedExactly` | frontdoor/session_loop.go:160-185 | in every run whose bytes can be framed a pass opens an offer if and only if leases are scheduled, what the client has sent is whole frames, and every one of them has been served |
| `DemandProgress.ReclaimedExactly` | frontdoor/session_loop.go:172-194 | a session the engine tries to reclaim while it waits is reclaimed if and only if it is at a frame boundary and leases are scheduled; if not its pass goes on with its input untouched |
| `DemandProgress.ToldThenFinalised` | frontdoor/demand_wake.go:175-224 | a reclaimed client is told if the write works, the record says which, and the lease goes back once |
| `DemandProgress.LoopCanEnd` | frontdoor/session_loop.go:69-97 | from every moment of every run the loop can end, and every reservation has then been finalised unless one was lost before |

## Left out

- TLS, x509, PEM files, key generation, cancel keys and the credential exchange.
- The engine, its lease scheduler and admission stages: any behaviour behind their interfaces is allowed, with a reservation taken only inside an open offer.
- The decoder's internals: it asks for a header's five bytes and then the declared body, with any room.
- Panics: one in the handling of a frame falls before or after it, since only inside an announcement is a grant in no one's hands; one on the accept or the pressure goroutine ends the process.
- Deadlines, liveness and goroutine scheduling: a timeout or a refused wait is one possible outcome of a step.
- Error texts, SQLSTATEs, audit events and which of several faults a refusal names; a duplicate spelling is reported under whichever key the map yields second.
- Reading during authentication, when the reader is unbounded, and frames read ahead there: the pass-through theorem starts at a frame boundary with an empty buffer.
- The session loop is modelled on values, one step per frame, engine message and engine answer, because its steps interleave; update in place is modelled for the objects it uses.
- Which statements the gate refuses: that is the engine's answer, and a refused one takes the branch of a failed one.
- The failure window is kept in an object of its own beside the admitter's counters; one lock guards both in the source.
- Admission.Admitter.Admit: an admitter without a gate is one whose gate is always open.
- A listener's own reference to its unlinked inode is not counted as holding the number, and removeIfStillOurs is atomic.
- StartupParams.CheckStartupParams: names are visited in any order rather than sorted, so the verdict is shown not to depend on it.
- The 256-byte cut of an application_name on a rune boundary: a short loop on its own.
- Unicode lower-casing and the parsing and printing of addresses are parameters, so nothing is said of any one of them; addresses are compared by number and family.
- The lifecycle runner and its outcome registry; the lane's tryReserve, which nothing but tests calls.
- Commands, migration, RPC verbs, the web gateway and the user interfaces: plumbing.
