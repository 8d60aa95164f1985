# OnlyTTY, modelled and proved

OnlyTTY shares a terminal through a relay that nobody has to trust. A runner owns the PTY
and talks to browser viewers over end-to-end sealed frames; the relay only labels, forwards,
drops or reorders them. This project models the parts whose correctness spans whole runs and
proves what they promise. `dafny verify dfyconfig.toml` checks everything.

| file | models |
|---|---|
| `Wire.dfy` | the length-prefixed envelopes and fixed-size payloads |
| `RunnerControl.dfy` | replay floors and write authority, against an arbitrary relay; the orchestrator as a class |
| `OutputPath.dfy` | pump, reader and sender around a lossy queue repaired from the ring, at lock granularity |
| `Ring.dfy` | the bounded history and its alignment to UTF-8 |
| `Session.dfy`, `Relay.dfy`, `Wiring.dfy` | the session process, the sockets and their mailboxes; what every socket believes |
| `Reaping.dfy` | the timer that closes a session without a runner |
| `Lifecycle.dfy` | joins, deaths and closes of the processes around a session |
| `OwnerCleanup.dfy` | control ownership behind an honest relay |
| `Delivery.dfy` | sequence numbers from the runner to the viewer's filter |
| `Deadline.dfy` | a session's lifetime across re-creations |
| `RateLimit.dfy`, `ClientIp.dfy` | the limiter and the address it counts by |
| `Base32.dfy`, `Qr.dfy`, `Scanner.dfy`, `Reconnect.dfy` | four loops and state machines at the edges |

How the models are built:

- A concurrent part is a state, a datatype of labels and a total `Next`; a label that is not
  enabled changes nothing, so every sequence of labels is a run and every theorem about
  `Exec` over all label sequences covers every interleaving. Objects whose methods run
  alone are classes, each method proved against the function the machine uses.
- Authenticated encryption is an ideal channel: a map from the ciphertexts that key-holders
  made to what each of them opens to. Opening anything else fails.
- Some state only observes and decides nothing: `log` and `grants` in `RunnerControl`,
  `Watch` in `OutputPath`, `starts`, `marks` and a frame's `conn` in `Delivery`, `known` in
  `OwnerCleanup`, the timer named by `Reap` in `Relay`.
- PROTOCOL.md lines 36-38 say the runner accepts a frame only if the relay's label and the
  sealed id match. The code does not compare them, and PROTOCOL.md lines 144-162 agree with
  the code (runner.go lines 607-616): ownership and floors hang on the sealed id alone. The
  model follows the code.
- A comment in app.js (line 70) says that opening a socket resets the failure count. The code
  resets it when a frame arrives (lines 228-231); the model follows the code.

Three statements one would expect turned out to need a condition:

- The viewer's sequence filter can drop frames of an honest path. A frame is dropped exactly
  when a later runner connection's frame was already shown (`Delivery.DropsOnlyLeftovers`),
  and that happens (`Delivery.LeftoverIsDropped`).
- Scanning a stream in two chunks can leave another screen state or verdict than scanning it
  whole. It leaves the same ones, whatever follows and whatever the screen was, exactly when
  the first chunk does not end in a CR, an ESC or an unfinished sequence, or ends in a CR after
  something that already drew (`Scanner.CutIsExact`).
- A window of the limiter can admit more than its quota. It does exactly when it had more
  requests than that and one of them was counted after a sweep that already found the window
  past and discarded an earlier one (`RateLimit.WindowBound`), and that happens when a request
  reads its clock before a sweep and is counted after it (`RateLimit.LateRequestOverruns`).
  On a clock used in order it does not (`RateLimit.ClockInOrder`).

## Model

| member | source | states |
|---|---|---|
| Wire.Encode | runner/internal/protocol/wire.go:93-103 | allocating and filling the buffer part by part yields magic, one length byte, the id cut to 255 bytes, then the body |
| Wire.DecodeEncode | runner/internal/protocol/wire.go:93-122 | decoding an encoding gives back id and body for ids of 1 to 255 bytes, the cut id for longer ones, and a refusal for the empty id |
| Wire.EncodeDecode | runner/internal/protocol/wire.go:140-156 | every accepted byte string has an id of 1 to 255 bytes and re-encodes to itself |
| Wire.RelayAgreesWithRunner | portal/lib/onlytty_web/onlytty_socket.ex:272-274 | the runner reads back the relay's label and frame if and only if the id has 1 to 255 bytes, and then both encoders write the same bytes |
| Wire.ResizeRoundTrip | runner/internal/protocol/wire.go:60-73 | a size survives the wire whatever follows it; a payload is accepted exactly from four bytes on; four bytes re-encode to themselves |
| Wire.HelloRoundTrip | runner/internal/protocol/wire.go:41-57 | baseline and size survive the wire |
| Wire.HelloReencodes | runner/internal/protocol/wire.go:50-57 | any twelve bytes are a hello and re-encode to themselves |
| Wire.ExitRoundTrip | runner/internal/protocol/wire.go:76-88 | every 32-bit exit code, negative ones included, survives the unsigned wire form |
| Wire.ExitReencodes | runner/internal/protocol/wire.go:83-88 | any four bytes are an exit code and re-encode to themselves |
| Wire.WireBytes | runner/internal/protocol/wire.go:41-80 | on the wire columns come before rows, higher bytes first, and exit codes are in two's complement |
| RunnerControl.FloorsNeverDrop | runner/internal/runner/runner.go:647-661 | no step of the reader, the relay, a teardown or a revoke lowers any replay floor |
| RunnerControl.AtMostOnce | runner/internal/runner/runner.go:594-661 | over every run against any relay, the effects of one sealed id carry strictly increasing sequence numbers, so no (id, seq) takes effect twice |
| RunnerControl.AuthorityHolds | runner/internal/runner/runner.go:594-766 | whatever the relay does, ownership, frame in hand and past effects stay authentic and accounted for by a grant |
| RunnerControl.WriteAuthority | runner/internal/runner/runner.go:617-636 | every viewer-originated write of every run is a sealed input or resize of the id that held control in the interval it was checked in; view-only runs have none; a once run has one writer and one interval |
| RunnerControl.CheckedBeforeLanding | runner/internal/runner/runner.go:617-629 | a write about to land has, earlier in the same run, a state in which its id was the owner, and the reader has done nothing since |
| RunnerControl.OwnerRouteTogether | runner/internal/runner/runner.go:663-667 | owner and owner route are empty together, and the empty id never reaches the ownership check |
| RunnerControl.AfterRevoke | runner/internal/runner/runner.go:851-866 | after a revoke and until the next grant at most one write lands, only one already checked; a once run never grants again |
| RunnerControl.InputMeaning | runner/internal/runner/runner.go:594-621 | an honestly sealed and labelled input reaches the terminal, once and unchanged, exactly if its number is new and its sealed id is the owner; new, it raises its floor and binds its route; old, it changes nothing at all |
| RunnerControl.ResizeMeaning | runner/internal/runner/runner.go:622-630 | a resize is applied with the sealed size exactly under the same condition and if its payload is one |
| RunnerControl.RequestLands | runner/internal/runner/runner.go:631-632 | every new request is answered, and granted exactly if its sender is the owner or nobody is and the policy allows; otherwise ownership, route, latch and grants stay |
| RunnerControl.ReleaseLands | runner/internal/runner/runner.go:633-634 | the owner's new release leaves nobody in control and is acknowledged once; anybody else's does nothing |
| RunnerControl.ReleasePassesControl | runner/internal/runner/runner.go:750-765 | in auto mode, after the owner's release the next new request of any id is granted |
| RunnerControl.UnknownKind | runner/internal/runner/runner.go:617-635 | a frame of any other kind raises its floor, binds its route and has no effect |
| RunnerControl.GrantPolicy | runner/internal/runner/runner.go:721-741 | in every run, when nobody is in control, a new request is granted exactly if the mode is auto, or it is once and nobody was ever granted control |
| RunnerControl.SomebodyTypes | runner/internal/runner/runner.go:594-621 | unless the mode is view-only there is a run from the start in which a viewer takes control and its input reaches the terminal |
| RunnerControl.RequestMeaning | runner/internal/runner/runner.go:721-748 | a request makes its sender owner exactly if it already was or nobody is and the policy allows; the reply tells which; nothing else changes |
| RunnerControl.ForgetMeaning | runner/internal/runner/runner.go:700-719 | a leaving route takes control with it exactly if it is the owner's route or bound to the owner's id; floors and the once latch stay |
| RunnerControl.ReleaseMeaning | runner/internal/runner/runner.go:750-759 | a release by the owner empties owner and route, anybody else's changes nothing; floors, bindings and latch stay |
| RunnerControl.DepartureClears | runner/internal/runner/runner.go:700-719 | in every run, reading that a route left clears control exactly if it was the owner's or bound to the owner's id, and otherwise takes away only its binding |
| RunnerControl.TeardownClears | runner/internal/runner/runner.go:692-698 | a teardown leaves no owner and no binding, a revoke no owner; neither touches a floor, the latch or what was done |
| RunnerControl.LabelIsPowerless | runner/internal/runner/runner.go:607-616 | one sealed frame under any two routing labels leaves floors, ownership, effects and grants the same |
| RunnerControl.Orchestrator.constructor | runner/internal/runner/runner.go:131-158 | a new orchestrator is the machine's initial state: no owner, no floors, the latch open |
| RunnerControl.Orchestrator.AcceptSeq | runner/internal/runner/runner.go:653-661 | accepts exactly numbers above the id's floor and raises that floor, no other |
| RunnerControl.Orchestrator.HandleControlRequest | runner/internal/runner/runner.go:721-748 | the fields and the reply become those of the request function, whose meaning is RequestMeaning |
| RunnerControl.Orchestrator.HandleControlRelease | runner/internal/runner/runner.go:750-765 | only the owner's release clears ownership and is acknowledged |
| RunnerControl.Orchestrator.HandleBinary | runner/internal/runner/runner.go:594-636 | called alone, it is exactly the machine's four steps on that frame: floors, bindings, ownership and effects |
| RunnerControl.Orchestrator.ForgetViewer | runner/internal/runner/runner.go:700-719 | the in-place update is the machine's departure step |
| RunnerControl.Orchestrator.ClearControlOwner | runner/internal/runner/runner.go:692-698 | the in-place update is the machine's teardown step, which keeps floors and latch |
| RunnerControl.Orchestrator.Revoke | runner/internal/runner/runner.go:851-866 | ownership is gone, nothing else changed, and exactly a former owner's route is told |
| Ring.Ring.constructor | runner/internal/ptysession/ring.go:15-20 | a new ring is empty and keeps at least one byte |
| Ring.Ring.Write | runner/internal/ptysession/ring.go:24-33 | after any write the buffer is the last max bytes of everything ever written |
| Ring.Ring.Snapshot | runner/internal/ptysession/ring.go:40-50 | the loop returns the longest suffix of the buffer that does not begin with a continuation byte |
| Ring.MaskIsTail | runner/internal/ptysession/ring.go:44-44 | the code's bit mask holds exactly for the tail bytes 0x80 to 0xBF of the standard |
| Ring.KeepsExactlyTheTail | runner/internal/ptysession/ring.go:24-33 | any number of writes leaves the last max bytes of their concatenation, however the output was cut |
| Ring.AnySuffixAligns | runner/internal/ptysession/ring.go:35-46 | cutting valid UTF-8 (section 4 of RFC 3629) anywhere orphans at most three bytes, and what follows them is valid |
| Ring.SnapshotIsText | runner/internal/ptysession/ring.go:35-50 | if the command prints valid UTF-8, every snapshot, also one taken in the middle of a character, skips at most three retained bytes and becomes valid with the output still to come; it is valid itself if none is |
| OutputPath.InvHolds | runner/internal/runner/runner.go:400-479 | every step of pump, reader, sender and connection life keeps coverage, genuineness of spans and repaints still owed |
| OutputPath.NoGapWhenDrained | runner/internal/runner/runner.go:446-511 | in every interleaving over any number of connections: once a viewer's repaint is written, whenever the path is drained every byte a snapshot of the ring would return has been sent to it since its last repaint |
| OutputPath.GapPump | runner/internal/runner/runner.go:214-235 | testing the viewer count, reading the connection, queueing and flagging an overflow open no gap that no repaint is due for |
| OutputPath.GapSnapshot | runner/internal/runner/runner.go:491-502 | a snapshot reaches back to the first retained character and, with what is still on its way, leaves no gap |
| OutputPath.SentInOrder | runner/internal/runner/runner.go:303-316 | in every interleaving what a viewer is sent after its repaint, followed by what is still on its way, is in printed order with nothing twice |
| OutputPath.HeardMeaning | runner/internal/runner/runner.go:553-579 | the viewer counts as attached, with no signal lost, exactly if the run announced it by its join or a counting hello and has since neither withdrawn it nor lost a signal for it |
| OutputPath.NoViewerForgotten | runner/internal/runner/runner.go:553-592 | in every run, a viewer announced by its join or a counting hello, and since then neither withdrawn nor let down by a full join channel, has been repainted as soon as nothing is signalled, queued for joining or being painted |
| OutputPath.JoinRepaints | runner/internal/runner/runner.go:560-572 | from every reachable state in which reader and sender are free, reading a join, or a hello that counts viewers, leads in five steps to a repaint of the whole retained history for that viewer and stores the count; another viewer's join disturbs nobody |
| OutputPath.LeftMeaning | runner/internal/runner/runner.go:573-579 | a departure stores the count read, ends the sending to that viewer or with the last to all, and disturbs no other |
| OutputPath.ReconnectRepaints | runner/internal/runner/runner.go:400-427 | a failed connection gives way to a fresh one with empty channels and nothing dropped, keeps the history, and a counting hello on it repaints the viewer |
| Session.EachTurn | portal/lib/onlytty/session.ex:190-195 | what a loop over the viewer map sends any process is what its turns send it, turn after turn in the visiting order |
| Session.ForEach | portal/lib/onlytty/session.ex:190-195 | for a process that no other viewer's turn addresses, that is its own turn alone, in any visiting order |
| Wiring.JoinRunnerTo | portal/lib/onlytty/session.ex:170-199 | when a runner joins, each viewer hears the old runner's removal, the new runner and one peer_join, in that order; a displaced runner hears only its close |
| Wiring.NewRunnerSees | portal/lib/onlytty/session.ex:190-195 | folding what the loop sends the new runner makes its three collections exactly the viewers visited |
| Wiring.ViewerJoinedMail | portal/lib/onlytty/session.ex:214-232 | an admitted viewer and the runner hear of each other, nobody else hears anything, and the count told includes the newcomer |
| Wiring.RunnerDownTo | portal/lib/onlytty/session.ex:294-299 | when the runner goes, every viewer hears peer_left and then the removal, once each |
| Wiring.WentDownMail | portal/lib/onlytty/session.ex:289-330 | exactly the parties of the process that went down are told; a stale monitor tells nobody |
| Wiring.BroadcastTo | portal/lib/onlytty/session.ex:354-358 | a close or drain reaches the runner and each viewer once and nobody else |
| Lifecycle.CloseReachesAll | portal/lib/onlytty/session.ex:252-285 | in every run a live session closes exactly when it reads a stop, or a reap with no runner attached; then its runner and each viewer have one close more to read and nobody else anything; a drain tells the same processes |
| Lifecycle.ClosedForGood | portal/lib/onlytty/session.ex:354-358 | however a session ended, every socket that joined it and still runs has a close to read, displaced runners too |
| Wiring.BusyChangesNothing | portal/lib/onlytty/session.ex:207-212 | a full session changes no state, timer or mailbox and tells nobody; only the refused caller stops |
| Wiring.SeesOneLess | portal/lib/onlytty_web/onlytty_socket.ex:164-176 | removing a peer keeps the socket's three collections equal to the viewer map without it |
| Wiring.InvHolds | portal/lib/onlytty/session.ex:170-330 | joins, refusals, deaths, displacement, drains, timers and reads in any order keep the wiring invariant |
| Wiring.SocketsAgreeWithSession | portal/lib/onlytty_web/onlytty_socket.ex:149-181 | in every reachable state of a live session the viewer count is within the cap, folding its pending mail over a socket's state gives the session's view (the runner's three collections and told count, each viewer's peers), and a displaced runner still running has its close in the mailbox |
| Wiring.TargetIsTheViewer | portal/lib/onlytty_web/onlytty_socket.ex:262-268 | with its mailbox read, a runner's targeted frame finds a process exactly for ids of present viewers, and that viewer |
| Lifecycle.DeathIsReported | portal/lib/onlytty/session.ex:289-330 | in every run a dead process that the session still counts has its down report in the mailbox |
| Lifecycle.ReadUpMeansAlive | portal/lib/onlytty/session.ex:307-324 | once its mail is read, a live session counts exactly the admitted viewers that are alive |
| Lifecycle.LockedMeansOne | portal/lib/onlytty/session.ex:207-212 | a locked session never has two viewers, an unlocked one never more than its maximum |
| Lifecycle.ViewerComesIn | portal/lib/onlytty/session.ex:202-244 | a viewer that comes in is admitted under the id drawn exactly if there is room, and else stopped with the session unchanged |
| Lifecycle.RunnerComesIn | portal/lib/onlytty/session.ex:170-199 | a runner that comes in is the session's runner, keeps every viewer and stops the timer |
| Lifecycle.DeathTakesOut | portal/lib/onlytty/session.ex:289-330 | a dead runner is gone and the timer runs; a dead viewer is gone and nobody else |
| Lifecycle.TimersAndStopsClose | portal/lib/onlytty/session.ex:252-283 | a session left without a runner closes when its timer fires, and any session on a stop |
| Lifecycle.HandleReads | portal/lib/onlytty_web/onlytty_socket.ex:131-183 | a running socket reads its mail in order, one message at a time, and stops at a close |
| Reaping.TimerHolds | portal/lib/onlytty/session.ex:170-184 | while a runner is attached no timer runs and no reap lies behind its down report; without one exactly its own timer or message is pending |
| Reaping.NoStaleReap | portal/lib/onlytty/session.ex:279-305 | a reap message closes the session exactly if it comes from the timer of the present absence; a left-over one finds a runner and changes nothing |
| Reaping.NoLeakedSession | portal/lib/onlytty/session.ex:289-305 | a live session without a runner always has its timer running or its message queued; with one, no timer runs |
| OwnerCleanup.HandleIsHandleBinary | runner/internal/runner/runner.go:594-636 | the one-step frame handling used there is the machine's sequence of lock regions |
| OwnerCleanup.OwnerIsPresent | runner/internal/runner/runner.go:641-645 | behind an honest relay control is unowned or held by a bound route that is attached or whose departure is unread; with all mail read the owner is present and the viewer count is the relay's |
| OwnerCleanup.NonOwnerLeaves | runner/internal/runner/runner.go:700-719 | in every run, reading that a viewer left keeps the owner exactly if it was not the owner's route |
| OwnerCleanup.LeavingMeaning | runner/internal/runner/runner.go:573-579 | the owner's own departure clears owner and route, any other leaves both |
| OwnerCleanup.ControlComesAndGoes | runner/internal/runner/runner.go:553-592 | from every moment with the mail read in auto mode, a viewer that comes in and asks gets control if nobody has it, nobody has it when it leaves, and the count follows both times |
| OwnerCleanup.ConnectionLife | runner/internal/runner/runner.go:400-427 | a connecting runner learns the relay's count from the hello; a cut one has no viewers, owner or bindings but all its floors |
| Delivery.AnyRelayShowsWhatWasSent | portal/priv/static/assets/app.js:310-328 | whatever a relay makes of the frames that a run of the runner sealed, over any number of connections, the viewer shows a subsequence of the frames sent, in sending order and none twice |
| Delivery.ShowsTheRecords | portal/priv/static/assets/app.js:326-328 | under any duplication and reordering the frames shown are a strictly increasing subsequence of those received |
| Delivery.InOrderDropsNothing | portal/priv/static/assets/app.js:326-328 | frames arriving in order are all shown |
| Delivery.LaterIsHigher | runner/internal/runner/runner.go:515-519 | numbers of a later connection are above all numbers of an earlier one |
| Delivery.SeqNeverRestarts | runner/internal/runner/runner.go:513-519 | the counter never falls, across reconnects too, and every write raises it |
| Delivery.NewestIsShown | portal/priv/static/assets/app.js:326-328 | in every run, whatever was lost before, the next frame of the current connection is shown once it is first in line everywhere |
| Delivery.DropsOnlyLeftovers | portal/lib/onlytty_web/onlytty_socket.ex:94-137 | over relay sockets that keep their order, with eviction, the filter drops a frame if and only if a later runner connection's frame was already shown |
| Delivery.LeftoverIsDropped | portal/lib/onlytty_web/onlytty_socket.ex:94-105 | a concrete run: a displaced connection's frame, forwarded after the new one's was shown, is dropped |
| Delivery.OneConnectionDropsNothing | portal/lib/onlytty_web/onlytty_socket.ex:94-137 | on one runner connection, broadcast and targeted frames through the same socket reach the screen in full and in order, whatever is evicted |
| Delivery.WiresLoseNothing | portal/lib/onlytty_web/onlytty_socket.ex:94-105 | in every run, what relay sockets forwarded of a connection, then what waits on its wire, is exactly what was sent on it, in order |
| Delivery.MailboxLosesNothing | portal/lib/onlytty_web/onlytty_socket.ex:131-137 | between evictions everything forwarded to a viewer arrives in forwarding order, whatever is queued there |
| Delivery.EvictionCutsTheRest | portal/lib/onlytty_web/onlytty_socket.ex:235-240 | an eviction cuts off exactly what had not been handed to the browser |
| Delivery.EverythingIsShown | portal/lib/onlytty_web/onlytty_socket.ex:94-137 | on one runner connection without eviction, with every frame for this viewer, what has arrived and what is on the wire is what was sent; once all is handed over the screen has shown all of it |
| Deadline.CreateMeaning | portal/lib/onlytty/session_store.ex:116-131 | the lifetime granted is the one asked for between a minute and the ceiling, else the nearer of the two; never beyond the operator's ceiling; none only if asked for and no ceiling is set |
| Deadline.RoundsUp | runner/internal/runner/runner.go:387-396 | rounding the remainder up gives exactly the distance from the clock's current second, so at least one |
| Deadline.ReclaimedDeadline | portal/lib/onlytty/session_store.ex:116-131 | a re-created session has the later of the original deadline and the shortest lifetime from now; no expiry stays none; a bounded one is never asked for as 0; past the deadline there is none |
| Deadline.NeverOutlives | runner/internal/runner/runner.go:327-345 | after any losses, expiries and re-creations a bounded session ends at its original deadline or at most 59 seconds later, and an unbounded one is still unbounded and shared |
| Deadline.RedialMeaning | runner/internal/runner/runner.go:338-343 | re-creation is refused exactly from the original deadline on, and gives exactly that deadline if and only if a minimum lifetime still remains |
| Deadline.ComesBack | runner/internal/runner/runner.go:327-345 | a session lost while shared is there again after the next dial with its deadline, or a minimum lifetime where that is later; past the deadline sharing stops |
| Deadline.ExpiresOnTime | portal/lib/onlytty/session.ex:267-271 | the session's own timer ends it at its deadline and not before, and never an unbounded one |
| RateLimit.Limiter.constructor | portal/lib/onlytty/rate_limit.ex:48-59 | the table starts empty |
| RateLimit.Limiter.Check | portal/lib/onlytty/rate_limit.ex:28-45 | one counter rises by one and the answer follows the new count |
| RateLimit.Limiter.Sweep | portal/lib/onlytty/rate_limit.ex:62-69 | exactly the counters of past windows go |
| RateLimit.CounterIsSince | portal/lib/onlytty/rate_limit.ex:37-66 | in every trace the counter is the number of requests of its key and window since the last sweep that passed that window |
| RateLimit.CounterIsCount | portal/lib/onlytty/rate_limit.ex:37-66 | it is the number of all of them if and only if no such sweep discarded one |
| RateLimit.AdmittedMeaning | portal/lib/onlytty/rate_limit.ex:37-43 | in every trace a request is admitted exactly if fewer than max of its key came before it in its window since the last sweep that passed it |
| RateLimit.SweepsMatter | portal/lib/onlytty/rate_limit.ex:61-69 | sweeps change an answer exactly if one discarded enough earlier requests of the window to lift a refusal; without a discard they change none |
| RateLimit.WindowMeaning | portal/lib/onlytty/rate_limit.ex:28-69 | in every trace an aligned window admits all its requests up to max; beyond max, exactly max if none was counted after a discarding sweep, more than max (unless max is 0) if one was |
| RateLimit.WindowBound | portal/lib/onlytty/rate_limit.ex:28-69 | an aligned window admits more than max of a key if and only if max is not 0, it had more requests than max, and one came after a sweep that passed the window and discarded an earlier one |
| RateLimit.SlidingBound | portal/lib/onlytty/rate_limit.ex:28-69 | in every trace at most twice max in any stretch of one window's length, unless one of the two windows it touches was overrun |
| RateLimit.ClockInOrder | portal/lib/onlytty/rate_limit.ex:35-36 | on a clock that never falls every request is answered by the full count of its window, no window admits more than max and no stretch of a window's length more than twice max |
| RateLimit.LateRequestOverruns | portal/lib/onlytty/rate_limit.ex:62-69 | a concrete trace in which a window of quota one is overrun and admits two |
| RateLimit.RetryReachesNextWindow | portal/lib/onlytty/rate_limit.ex:42-42 | waiting as told always lands in a later window, at most a second after the next one opens |
| RateLimit.AnswerMeaning | portal/lib/onlytty/rate_limit.ex:37-43 | in every trace the answer is admission, or the seconds after which a new window has opened, at most one second late |
| Base32.PendByte | portal/priv/static/assets/crypto.js:45-46 | shifting a byte into the wrapping, unmasked accumulator appends its bits to the pending ones |
| Base32.TakeGroup | portal/priv/static/assets/crypto.js:47-50 | the five bits taken are the next group of the bit stream, and the rest stay pending |
| Base32.LastGroup | portal/priv/static/assets/crypto.js:52-52 | the last short group is filled up with zeros |
| Base32.Base32NoPad | portal/priv/static/assets/crypto.js:42-54 | for input of every length the loop writes exactly section 6 of RFC 4648 without padding |
| Base32.Injective | portal/priv/static/assets/crypto.js:40-54 | two inputs with one encoding are one input |
| Qr.WriteRow | runner/cmd/onlytty/qr.go:38-57 | a line of width size + 8 shows rows y and y + 1 of the symbol shifted by four |
| Qr.WriteHalfBlockCode | runner/cmd/onlytty/qr.go:22-66 | every half-row but the last shows the symbol with four light modules on each side (one row more below an even-sized one), the last is unlit, every line has width size + 8 |
| Qr.PictureIsTheCode | runner/cmd/onlytty/qr.go:37-58 | the picture determines every module of the symbol |
| Scanner.Watcher.MarkScreenActivity | runner/internal/runner/runner.go:785-825 | for any bytes the index loop ends in bounds with the alternate-screen state the tokens spell out, and stamps the time exactly if one of them drew on the screen |
| Scanner.Watcher.ApplyFinal | runner/internal/runner/runner.go:810-819 | the switch over a finished sequence does what its token means |
| Scanner.SequenceReads | runner/internal/runner/runner.go:795-809 | every ESC [ with a private mark or none, any digits and semicolons and a final byte is read as that sequence, whatever follows |
| Scanner.ActMeaning | runner/internal/runner/runner.go:789-835 | a bare CR draws; marked h and l draw, and switch the alternate screen for 1049, 47 and 1047; unmarked cursor and erase finals draw; nothing else does anything |
| Scanner.TokensSplit | runner/internal/runner/runner.go:785-821 | after a clean chunk the tokens of the whole are those of the two parts |
| Scanner.ChunkInsensitive | runner/internal/runner/runner.go:785-825 | scanning in two chunks cut after a clean one gives the same screen state and verdict as scanning the whole |
| Scanner.DirtyChunk | runner/internal/runner/runner.go:790-809 | a chunk that is not clean has a continuation under which the cut reads differently |
| Scanner.CleanIsExact | runner/internal/runner/runner.go:785-825 | the tokens of the whole are those of the two chunks, for every continuation, if and only if the first chunk is clean |
| Scanner.CutIsExact | runner/internal/runner/runner.go:785-825 | two scans leave the screen state and verdict of one, for every screen and continuation, if and only if the first chunk is clean, or ends in a scanned CR after something that already drew |
| Scanner.ReturnTail | runner/internal/runner/runner.go:789-794 | after a trailing CR the two scans agree exactly if something before it or after it drew, or the next byte is no line feed |
| Scanner.EscapeTail | runner/internal/runner/runner.go:795-797 | a trailing ESC always has a continuation that only the whole scan recognises |
| Scanner.UnfinishedTail | runner/internal/runner/runner.go:807-809 | an unfinished sequence always has a continuation that only the second chunk's scan recognises |
| Reconnect.Viewer.constructor | portal/priv/static/assets/app.js:64-68 | a fresh page has no failures, no retries and no socket |
| Reconnect.Viewer.OpenSocket | portal/priv/static/assets/app.js:210-215 | a socket opens unless the viewer has ended or given up |
| Reconnect.Viewer.HandleFrame | portal/priv/static/assets/app.js:220-236 | only a frame that is not busy resets the failure count, only a decrypted one the busy budget; busy retries, ends or gives up by its branches |
| Reconnect.Viewer.HandleClose | portal/priv/static/assets/app.js:238-267 | a close is ignored when stopped, swallowed after a busy, counted against the budget otherwise |
| Reconnect.Viewer.HandleTimer | portal/priv/static/assets/app.js:265-265 | a due retry is used up and opens a socket unless stopped |
| Reconnect.Viewer.Leave | portal/priv/static/assets/app.js:548-557 | leaving stops the viewer for good and drops its socket without a close event |
| Reconnect.OneAtATime | portal/priv/static/assets/app.js:210-269 | in every run never two live sockets, never two pending retries, both at once only between a busy and its close, and never neither while still trying |
| Reconnect.RetryBeforeClose | portal/priv/static/assets/app.js:403-413 | were the busy retry due before that socket's close, two sockets would be open |
| Reconnect.CloseRetries | portal/priv/static/assets/app.js:238-266 | a counted close below the limit arms one more retry and goes on, one at the limit stops, one after a busy leaves that busy's retry |
| Reconnect.StopsExactly | portal/priv/static/assets/app.js:220-267 | in every run the viewer has stopped if and only if the user left, the session said bye, the command exited, busy came before any other frame or once more than the budget since a decrypted one, or counted closes reached the limit with no frame but busy between them |
| Reconnect.EveryRetryConnects | portal/priv/static/assets/app.js:210-215 | while it is trying, it has opened one socket at the start and one for each due retry, and a socket or a retry is there to go on with |
| Reconnect.EndsOrGivesUp | portal/priv/static/assets/app.js:248-262 | whatever stops a viewer ends its session, except busy or closes at a tab that was never connected: that one only gives up |
| Reconnect.StoppedForGood | portal/priv/static/assets/app.js:210-211 | once ended or given up, no socket is ever opened again |
| Reconnect.TriesRunOut | portal/priv/static/assets/app.js:238-267 | without a frame other than busy, sockets opened plus tries left never grows |
| Reconnect.BoundedlyManySockets | portal/priv/static/assets/app.js:243-266 | a tab that hears nothing but busy opens at most three sockets; a viewer that has been connected opens, from any moment on, at most 2 * budget more while it hears nothing but busy, and one less if its failure count is fresh and no retry is pending |
| ClientIp.SplitAppend | portal/lib/onlytty_web/client_ip.ex:84-84 | splitting at commas distributes over text joined by a comma |
| ClientIp.JoinSplit | portal/lib/onlytty_web/client_ip.ex:84-84 | the pieces hold no comma and joined by commas are the header |
| ClientIp.TrimMeaning | portal/lib/onlytty_web/client_ip.ex:85-85 | trimming takes space off the two ends and nothing else |
| ClientIp.KeptMeaning | portal/lib/onlytty_web/client_ip.ex:85-86 | a piece of nothing but space is dropped, any other is one entry |
| ClientIp.StripMeaning | portal/lib/onlytty_web/client_ip.ex:97-100 | opening brackets are taken off the front, closing ones off the end, and nothing else |
| ClientIp.EntriesAreTrimmed | portal/lib/onlytty_web/client_ip.ex:84-86 | entries are never empty and never padded |
| ClientIp.ShortListsFallBack | portal/lib/onlytty_web/client_ip.ex:53-93 | the address is the entry at the setting's distance from the right, and the peer's exactly if the list is too short or that entry is unreadable |
| ClientIp.LeftIsIgnored | portal/lib/onlytty_web/client_ip.ex:80-93 | entries on the left never change the key once the right end is long enough |
| ClientIp.PrependingIsHarmless | portal/lib/onlytty_web/client_ip.ex:49-93 | forged headers in front, and any text and a comma before the first trusted header, never change the resolved key when the trusted part has an entry for every hop and the client |
| ClientIp.SameBucket | portal/lib/onlytty_web/client_ip.ex:65-74 | two addresses share a key if and only if they are the same, or both IPv6 with the same first four groups |
| ClientIp.ResolvesToBucket | portal/lib/onlytty_web/client_ip.ex:49-74 | the key is the client's IPv4 address, or its IPv6 address with all but the first four groups zero |
| ClientIp.CountedTogether | portal/lib/onlytty_web/client_ip.ex:49-74 | two requests share a key if and only if their clients are one address, or IPv6 with the same first four groups |

## Left out

- OutputPath.NoGapWhenDrained: the goroutines are a step machine over values, since one step is one lock region or channel operation of several goroutines; byte slices are values, so reuse of the read buffer is not modelled, and repaint frames (hello, reset, output) are written in one step.
- OutputPath.NoViewerForgotten: leaves out viewers whose join signal a full join channel lost, as the source itself drops them; that the goroutines are scheduled at all is not part of the model.
- RunnerControl.Orchestrator.HandleBinary: states the method run alone; what a concurrent revoke does between its lock regions is proved on the machine.
- Ring.Ring.Write: the buffer is a sequence, so the reuse of the backing array by the in-place compaction is not modelled.
- Wire.Encode: one method for the two Go encoders, which differ only in their magic.
- Base32.Base32NoPad: the inner loop is a method of its own (`WriteGroups`) called by the outer one.
- Delivery.DropsOnlyLeftovers: the queue length that triggers an eviction is not modelled; an eviction may happen at any moment.
- Deadline.NeverOutlives: one shared clock read once per re-creation; the time a request travels, clock skew and the float in the duration's conversion to seconds are not modelled. The relay refusing a re-creation (capacity, bad token) only leaves the session lost.
- RateLimit.Limiter.Check: the setting that switches the limiter off always admits and is not modelled; limits do not change while running.
- Qr.WriteHalfBlockCode: only the even quiet zone, which is what the constant selects.
- RateLimit.SlidingBound: one way only for a stretch that is not an aligned window; what a single request is answered, and what an aligned window admits, is exact.
- Reconnect.OneAtATime: assumes what the relay and the browser do, that busy is a socket's last frame and its close comes before the retry it asked for; the asynchronous handling of a frame is one step with its arrival, and a retry with a new passphrase is not modelled.
- ClientIp.ShortListsFallBack: the address parser and the set of characters that trimming removes are parameters.
- Wiring.InvHolds: random ids are assumed not to collide with those of the viewers present; binary traffic is left to `Delivery`.
- Reaping.NoStaleReap: firing and queueing the message are one step, as the runtime delivers it; the idle timer is not covered, because a queued idle message is not discarded when the runner turns active.
- Authenticated encryption, key derivation, randomness and constant-time comparison: an ideal channel and fresh ids instead.
- Overflow of sequence numbers at 2^64 in Go and 2^53 in the browser: numbers are unbounded.
- Agreement between the viewer's own idea of having control and the runner's owner: control frames may be dropped, so it does not hold.
- Equality of screens after a repaint: queued frames are sent again after the snapshot, so only coverage holds.
- Terminal and network plumbing: the PTY, raw mode, signals, JSON, base64, HTTP, WebSocket handshakes and cluster membership.
- The browser's interface, the marketing site, metrics and configuration loading: simple tables or user interface.
