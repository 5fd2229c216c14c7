# rk-m87-sync: a verified model

rk-m87-sync keeps the clock and the volume bar of a keyboard's screen in step with the host. This
project models its daemon, its firmware decryptor and its report builders in Dafny and proves what
they promise.

**The daemon.** `SyncState` (src/state.rs) is a timed state machine: `poll` says which action is owed,
handlers record how it went, `next_deadline` says how long to sleep. `watch_loop` (src/daemon.rs)
sleeps, takes one event from a channel, and drains `poll` at a frozen time while the keyboard answers.
Monitor threads (src/volume.rs) feed the channel.

- `SyncSpec` is the state machine as a value: `Due` and `Fired` together are `poll`. `SyncStateModel`
  is the object with its fields; every method is proved against `SyncSpec`.
- `MainLoop` and `EventLoop` are the main thread as a value; `DaemonModel` is the object with the real
  control flow, both loops included, proved against them. `Hid` turns wire outcomes into answers.
- `System` interleaves the main thread, any number of monitor threads and the signal thread, one small
  step at a time, with a history that steers nothing. A run is any sequence of steps. `Interleaving`
  shows that the daemon object's whole loop, woven with any steps of the other threads before each turn, is
  such a run; `PulseMonitorModel` shows the same of a monitor thread.
- `Trace` keeps the record of a run, what was done and met and when, and says what is owed from that record
  alone: no timers, no flags, only what happened last. `Trace.DueIsOwed` proves that the state machine and all
  its handlers agree with it in every run. `Timing` draws conclusions from the record.
- `Deadline`, `Ending`, `Spinning`, `Ticks`, `Monitors`, `Runs`, `Pacing`, `Tightness`, `Display`, `Retry`,
  `Progress`, `Settling`, `Delivery` and `Repair` hold the results about every run and every environment;
  `Scenarios` holds the building blocks of the runs that show something can happen.

Time is a number of ticks. The environment is arbitrary: what the wire does, how long things take, when
monitors start, report and die. Actions use the frozen time of the drain, except connecting, which
reads the clock again after the search. Intervals are symbolic; a theorem asks for a positive interval
only where it needs one.

**The decryptor.** `PyInt` is Python's unbounded `^` and `&`; `Tea` the modified TEA as the Python text
computes it, the 32-bit cipher it refines, and the encryptor that undoes it; `KnownAnswer` has its sums and
a first round in numbers; `Upf` and `UpfFile` are the in-place buffer loop and the file layout.

**The reports.** `Reports` builds the payload and both framings and reads them back.

## What is false of the code

- `next_deadline` consults the pulse timer even while the device is down, when `poll` does not. The loop
  then spins with a zero timeout. `Deadline.DeadlineExactUnlessMasked` and
  `Deadline.SpinsExactlyWhenPulseOverdue` say exactly when. It happens in every state in which both a device
  reconnect and a respawn are scheduled, once the respawn is due, and does not end until a device is found,
  because each failed search only schedules the next one (`Spinning.BothTimersStarve`,
  `Spinning.StarvedUntilConnect`, `Spinning.FoundDeviceEndsStarvation`). `Spinning.SpinIsReached` is a run
  into it for every positive reconnect delay, and `Deadline.RepairedDeadlineExact` the repair.
- docs/PROTOCOL.md:635-639 and the comment at src/state.rs:185-189 say that an unacknowledged sync is
  held and delivered when the keyboard is back. Once the link is up and the delay over, the code owes a send
  if and only if the time sync is due, a device was found since, or another volume was heard since and has
  settled (`Retry.UnansweredSyncSentAgainIff`); the volume that was not acknowledged does not count. A send
  that only a volume change caused is forgotten until the next time sync
  (`Retry.UnansweredVolumeIsForgotten`, `Retry.ForgottenVolumeWitness`). The model follows the code.
  `Repair` follows the daemon with one line added, `vol_dirty = true` in `on_send_no_ack`: display
  coherence then needs no condition on the backoff, the rate limit stays, an unanswered sync is sent again
  unless a newer volume has yet to settle, and the right volume is shown without waiting for a time sync.
- Clearing the dirty flag on every send is safe only because a growing backoff remembers an unanswered
  one, which needs `0 < retry_base < retry_max` (`Display.CoherentIffBackoffGrows`).
- The firmware script fails on an empty chunk and on one that ends inside a leading long jump; the round
  trip holds exactly without them (`UpfFile.AssembledFileParses`).

## Model

| member | source | states |
|---|---|---|
| SyncStateModel.SyncState.constructor | src/state.rs:64-79 | A new machine owes an initial sync at once, has no timer set and believes the link is up. |
| SyncStateModel.SyncState.Poll | src/state.rs:93-149 | The priority chain with its in-place updates answers exactly the owed action and leaves exactly the state that handing it out leaves; an answer of None changes nothing. |
| SyncStateModel.SyncState.NextDeadline | src/state.rs:152-174 | The sleep never exceeds the cap or misses an action, and in every unmasked state ends when the next action is owed; in masked ones it does not. |
| SyncStateModel.SyncState.OnVolumeChanged | src/state.rs:82-89 | A repeated volume is ignored; a new one is remembered, marked dirty and restarts the debounce. |
| SyncStateModel.SyncState.OnSendOk | src/state.rs:178-183 | An acknowledged send schedules the next time sync, clears the dirty flag and resets the backoff. |
| SyncStateModel.SyncState.OnSendNoAck | src/state.rs:190-197 | The delay returned is the backoff before it doubles; the link goes down and its poll timer is set. |
| SyncStateModel.SyncState.OnLinkState | src/state.rs:204-214 | Up clears the link poll timer, down keeps a timer that is already running. |
| SyncStateModel.SyncState.OnDeviceLost | src/state.rs:217-219 | Losing the device schedules a reconnect and touches nothing else. |
| SyncStateModel.SyncState.OnPulseLost | src/state.rs:222-224 | Losing the monitor schedules a respawn and touches nothing else. |
| SyncStateModel.SyncState.OnDeviceConnected | src/state.rs:227-236 | A connect makes an initial sync due at once and forgets backoff and link trouble, but not a dirty volume. |
| SyncStateModel.SyncState.OnPulseConnected | src/state.rs:239-241 | A spawned monitor clears its respawn timer. |
| Deadline.OwedStaysOwed | src/state.rs:93-149 | Once an action is owed some action stays owed, so waking late never loses one. |
| Deadline.DeadlineMissesNothing | src/state.rs:152-174 | In every state `poll` is silent at every time before the deadline is over. |
| Deadline.DeadlineExactUnlessMasked | src/state.rs:93-174 | The closed-form deadline is the first time `poll` fires, cut at the cap, if and only if the pulse timer is not masked by a device reconnect. |
| Deadline.RightWaitUnique | src/state.rs:152-174 | Only one wait meets that specification. |
| Deadline.SpinsExactlyWhenPulseOverdue | src/state.rs:95-110 | After a drain the timeout is zero if and only if a device reconnect is ahead and a pulse reconnect overdue. |
| Deadline.RepairedDeadlineExact | src/state.rs:152-174 | With the pulse timer consulted only while the device is up, the deadline is right in every state. |
| Spinning.StarvedUntilConnect | src/daemon.rs:139-183 | In every run in which no search finds a device, a lost monitor whose respawn is hidden by a device reconnect is never respawned, and once it is due every sleep has length zero. |
| Spinning.BothTimersStarve | src/state.rs:95-110 | Every reachable state with both reconnects scheduled is the start of such a starvation. |
| Spinning.FoundDeviceEndsStarvation | src/daemon.rs:64-126 | The first search that finds a device ends it: the overdue respawn is the next action of the same drain. |
| Spinning.SpinIsReached | src/state.rs:155-157 | For every positive reconnect delay there is a run after which the loop owes nothing and yet does not sleep for a whole reconnect delay, and starves. |
| DaemonModel.Daemon.constructor | src/daemon.rs:25-42 | The daemon starts with one connect attempt and one monitor. |
| DaemonModel.Daemon.TryConnectDevice | src/daemon.rs:139-183 | A found device is taken with its link state read at the later clock; a failed link query is ignored; a failed search schedules a reconnect from the later clock. |
| DaemonModel.Daemon.TrySpawnPulse | src/daemon.rs:185-196 | A spawn takes the handle and clears the timer. |
| DaemonModel.Daemon.Send | src/daemon.rs:66-95 | The three outcomes of a send reach the three handlers at the frozen time; an error drops the device. |
| DaemonModel.Daemon.QueryLink | src/daemon.rs:110-124 | The outcomes of a link query reach the handlers at the frozen time; an error drops the device. |
| DaemonModel.Daemon.DrainActions | src/daemon.rs:63-126 | The inner loop ends whatever the answers, after at most three actions, with nothing owed, and performed exactly the specified actions. |
| DaemonModel.Daemon.Await | src/daemon.rs:45-60 | The wait takes the oldest event or lasts at least the deadline, and each event reaches its handler at the time read after the wait. |
| DaemonModel.Daemon.OneTurn | src/daemon.rs:44-127 | One turn waits for an event or the deadline, handles at most one event and drains. |
| DaemonModel.Daemon.WatchLoop | src/daemon.rs:44-127 | The outer loop over any script leaves the state, queue and action log of the specified loop and stops at a shutdown. |
| MainLoop.StepKeepsGood | src/daemon.rs:64-126 | Every turn of the inner loop keeps: device slot filled exactly when no reconnect is scheduled, link polled exactly while down, a cable's link up. |
| MainLoop.NoActionIsDropped | src/daemon.rs:67-111 | No send or link query is dropped for want of a device, and on a cable the link is never queried. |
| MainLoop.ActionsOnlyMoveOn | src/daemon.rs:64-126 | At one frozen time an action can only be followed by a later one in the order connect, spawn, query, send. |
| MainLoop.DrainInRankOrder | src/daemon.rs:64-126 | A drain performs its actions in that order, at most one of each, and performs one exactly when one is owed. |
| MainLoop.DrainIsShort | src/daemon.rs:64-126 | A drain performs at most three actions and never both a connect and a link query. |
| MainLoop.FourTurnsAreEnough | src/daemon.rs:64-126 | Against any answers nothing is owed after four turns of the inner loop. |
| Ending.DrainEndsIffPositive | src/daemon.rs:64-126 | Every drain that any run enters ends against every environment if and only if time-sync, reconnect and status-poll intervals are positive; without that the very first drain need not end. |
| Interleaving.LoopTurnIsRun | src/daemon.rs:44-127 | A turn of the daemon's loop is a run of the interleaved system with the same state, queue and log of actions. |
| Interleaving.LoopIsRun | src/daemon.rs:44-127 | Any script of turns of the loop, woven with any steps of the monitor and signal threads before each turn, is one run of the interleaved system with the same state, queue, actions in the same order and end. |
| Interleaving.TurnsFindWhatIsQueued | src/daemon.rs:44-60 | In that run each turn follows the other threads' steps of its beat and finds arrived exactly the events those steps queued. |
| Ticks.EventRunIsTickRun | src/daemon.rs:44-127 | For every script of events and answers, sleeping until deadlines performs the same actions at the same times as polling at every tick. |
| Ticks.WakeIsLoopTurn | src/daemon.rs:44-127 | Each on-time wake is a turn of the daemon's event loop, with any number of events queued already. |
| Ticks.EventRunIsLoopRun | src/daemon.rs:44-127 | For every script of events and answers the actions of the sleeping daemon are the log of the daemon's event loop over the turns that wake on time. |
| Ticks.SkipIdleTicks | src/state.rs:93-174 | Any stretch of ticks with nothing to do can be skipped without changing the run. |
| Monitors.TokensConserved | src/volume.rs:24-34 | Live monitors, unread disconnects and a scheduled respawn add up to one in every reachable state before shutdown and to at most one after. |
| Monitors.OneMonitorAtATime | src/daemon.rs:185-196 | Two monitors never feed the channel, and none lives while a disconnect is unread or a respawn scheduled. |
| Monitors.QueueDeliversTheVolume | src/volume.rs:50-92 | What a live monitor last saw is what the daemon knows once it has handled its queue, across deaths and respawns. |
| Monitors.HandleHeldUnlessRespawning | src/daemon.rs:52-56 | The thread handle is held exactly while no respawn is scheduled. |
| Monitors.EndsOnSignal | src/daemon.rs:198-213 | The shutdown event is never lost or doubled, the loop ends only on it, and a monitor still alive is one whose handle is held. |
| PulseMonitorModel.PulseMonitor.RunPulseMonitor | src/volume.rs:37-109 | The monitor loop with its event flag and last volume sends exactly what the specified life sends. |
| PulseMonitorModel.PulseMonitor.Spawn | src/volume.rs:24-34 | An error of the monitor is reported as a disconnect, a clean end is not. |
| PulseMonitorModel.MonitorReports | src/volume.rs:52-99 | A monitor reports changed volumes only, the last one the one it remembers, then at most one disconnect, and without shutdown never ends without one. |
| PulseMonitorModel.MonitorTells | src/volume.rs:49-99 | What a monitor sends, by its rounds alone: the changes among the initial volume and the volumes queried in rounds that noticed an event, up to the first round it does not survive, then a goodbye unless that round saw the shutdown flag; it remembers the last volume read. |
| PulseMonitorModel.NeverConnected | src/volume.rs:24-39 | A monitor that cannot connect sends a goodbye and nothing else. |
| PulseMonitorModel.LifeIsRun | src/volume.rs:24-109 | A monitor thread's whole life is a run of the interleaved system that queues exactly what the thread sends. |
| Runs.SoundAlways | src/state.rs:217-236 | In every reachable state the device slot matches the reconnect timer, the link is up exactly when no link poll is scheduled, and the clock never ran back. |
| Trace.DueIsOwed | src/state.rs:81-241 | In every run and at every time the owed action is the one the record calls for: which entry about the device, the monitor, the link, the sends or the volume came last, and when; the slot holds the device last found and not lost since. |
| Timing.RecordIsLawful | src/daemon.rs:44-127 | Every action in a record is the one owed by what was recorded before it, and times never run back. |
| Timing.HistoryIsRecorded | src/daemon.rs:63-126 | The action log and the send times of the other results are those of the record. |
| Timing.LossMeansSearch | src/daemon.rs:66-183 | In every run, after a failed exchange (write or poll error, missing or high-bit reply, by wire outcome) or an empty search, the slot is empty, a search is owed from the reconnect delay on and not before, it is the next thing done about the device, and nothing is sent or asked before a search finds a device. |
| Timing.DownMeansQuery | src/daemon.rs:151-160 | In every run, after a dongle has said that its link is down, at the connect too, or after an unanswered send, a query is owed from the status poll interval on and not before unless a respawn is due, and nothing is sent before the link is reported up or another device found. |
| Timing.QueriesAreSpaced | src/state.rs:112-121 | In every run any two link queries are at least the status poll interval apart. |
| Timing.QueriesSpacedExactlyByStatusPoll | src/state.rs:112-121 | All runs space their queries by d if and only if d is at most that interval. |
| Timing.RespawnFollowsDisconnect | src/state.rs:103-110 | In every run a monitor is respawned only for a disconnect taken since the last spawn and no earlier than the reconnect delay after it, and from then on it is what is owed whenever a device is there. |
| Timing.DefaultTimings | src/state.rs:3-9 | The daemon's intervals, its send gap and its retry delays in milliseconds. |
| Pacing.SendsAreSpaced | src/state.rs:123-145 | In every run the polls behind two consecutive sends are at least min(debounce, time sync, reconnect, max(min(retry base, retry max), status poll)) apart. |
| Pacing.SendsAreFew | src/state.rs:123-145 | A run of length T sends at most T/gap + 1 times. |
| Tightness.SpacedExactlyUpToGap | src/state.rs:123-145 | Every reachable history spaces its sends by d if and only if d is at most that minimum: no better rate limit holds. |
| Display.CoherentAlways | src/state.rs:176-197 | If the acknowledged volume differs from the one to show, a dirty flag, a pending initial sync, a missing device or a raised backoff remembers it. |
| Display.CoherentIffBackoffGrows | src/state.rs:190-197 | That holds in every run if and only if 0 < retry base < retry max. |
| Retry.BackoffClosedForm | src/state.rs:190-197 | After n >= 1 unanswered sends in one connection the backoff is min(base * 2^n, max), and no send comes before the first of them plus the sum of the delays. |
| Retry.DelaysAreCutPowers | src/state.rs:190-197 | With base <= max the k-th delay is min(base * 2^k, max), the first included. |
| Retry.UnansweredSyncSentAgainIff | src/state.rs:112-145 | In every run, from an unanswered send until the next one, once the link is up and the delay over, a send is owed if and only if the time sync that stood is due, a device was found since, or another volume was heard since and has settled. |
| Retry.UnansweredVolumeIsForgotten | src/state.rs:136-145 | In every run, after an unanswered volume-only send, as long as no device is found and no other volume heard, nothing is sent before the time sync, which lies ahead. |
| Retry.ForgottenVolumeWitness | docs/PROTOCOL.md:635-639 | A run with default intervals in which an unanswered volume is not sent when the link returns ten seconds later, but half an hour later. |
| Repair.RepairSetsOneFlag | src/daemon.rs:66-95 | The repaired send differs from the code's by the dirty flag alone, and only when nobody acknowledged it. |
| Repair.RepairedIsCoherent | src/state.rs:176-197 | In every run of the repaired daemon, for every configuration, a volume the keyboard does not show is remembered by the dirty flag, a pending initial sync or a missing device. |
| Repair.RepairedSendsAreSpaced | src/state.rs:123-145 | Every run of the repaired daemon keeps the same minimum gap between sends. |
| Repair.RepairedSyncSentAgainIff | docs/PROTOCOL.md:635-639 | In every run of the repaired daemon, once the link is up and the delay over, an unanswered sync is sent again unless a volume heard since has yet to settle and neither the time sync nor a device found since makes the send due anyway. |
| Repair.RepairedVolumeIsDelivered | src/daemon.rs:44-127 | From every state of every repaired run, once every search and exchange succeeds, however long each takes and whatever other threads do, at any rest at least max(debounce, reconnect, status poll, retry base, retry max) later the keyboard has acknowledged the volume known, which is what a live monitor last saw. |
| Repair.AnsweredRunIsCodes | src/state.rs:190-197 | While the keyboard answers, the repaired daemon and the code's go through the same states. |
| Repair.RepairedVolumeIsShownPromptly | src/daemon.rs:44-127 | On time, with answers that take no time and nothing more queued: from every state of every repaired run that goes on so, the volume last heard is sent within that time and nothing else after it, or was acknowledged already and nothing else is sent. |
| Progress.SomeActionIsNear | src/state.rs:93-149 | From every reachable state, with no event, an action is owed within the longest interval of the latest clock reading. |
| Progress.DueTimeSyncStaysDue | src/state.rs:178-236 | A due time sync stays due through any steps until a send is acknowledged. |
| Progress.TurnsAreBounded | src/daemon.rs:44-60 | In every run the turns of the outer loop are at most events + actions + masked turns + elapsed / max poll + 1. |
| Delivery.VolumeIsDelivered | src/daemon.rs:44-127 | From every reachable state, once every search and exchange succeeds, however long each takes, however late the loop wakes and whatever monitors and signals do, at any rest at least the longest interval later the keyboard has acknowledged the volume known, which is what a live monitor last saw. |
| Delivery.RememberedVolumeIsDelivered | src/daemon.rs:44-127 | If that volume is acknowledged already, or a dirty flag, a pending initial sync, a missing device or a new volume in the queue remembers it, max(debounce, reconnect, status poll, retry base, retry max) is enough. |
| Delivery.RestIsReached | src/daemon.rs:44-127 | From every reachable state without a shutdown such a continuation to a rest exists, as late as one likes. |
| Settling.VolumeIsShown | src/daemon.rs:44-127 | On time, with answers that take no time: from every reachable state, mid-drain or with a queue still to read, if no shutdown is queued, the keyboard answers and nothing more is queued, the volume last heard is sent within the longest interval and nothing else after it; it is what a live monitor last saw. |
| Settling.RememberedVolumeIsShownPromptly | src/daemon.rs:44-127 | On time, with answers that take no time: if something remembers the volume, that takes at most max(debounce, reconnect, status poll, retry base, retry max). |
| Settling.ResumeIsRun | src/daemon.rs:44-127 | The run of these two results, the rest of a drain and the sleeping daemon after it, is a run of the interleaved system in which only the main thread moves, action for action. |
| Settling.ResumeOnlyShows | src/state.rs:123-145 | From any state with nothing new in its queue, whatever the keyboard answers, only the volume already known is ever sent. |
| PyInt.XorIsBitwise | scripts/decrypt_upf.py:23-24 | The modelled `^` flips bit by bit. |
| PyInt.AndIsBitwise | scripts/decrypt_upf.py:23-25 | The modelled `&` keeps bit by bit, negative operands in two's complement. |
| PyInt.MaskIsModulo | scripts/decrypt_upf.py:23-25 | Masking with n ones is reduction modulo 2^n, after a subtraction that went negative too. |
| PyInt.XorModulo | scripts/decrypt_upf.py:23-24 | Reducing before or after an exclusive or gives the same. |
| Tea.LateMaskIsFixedWidth | scripts/decrypt_upf.py:23-24 | The unbounded round masked once at the end equals the round in wrapping 32-bit arithmetic. |
| Tea.TeaDecryptBlock | scripts/decrypt_upf.py:18-26 | The 32-round loop with Python's operators computes the fixed-width cipher. |
| Tea.RoundsCancel | scripts/decrypt_upf.py:22-25 | One round of encryption and one of decryption undo each other. |
| Tea.DecryptUndoesEncrypt | scripts/decrypt_upf.py:22-25 | n rounds down undo n rounds up, for every n and starting sum. |
| Tea.EncryptUndoesDecrypt | scripts/decrypt_upf.py:22-25 | n rounds up undo n rounds down. |
| Tea.BlockBijection | scripts/decrypt_upf.py:18-26 | For every key block decryption is a bijection on pairs of words, with the 32-round encryptor as its inverse on both sides. |
| KnownAnswer.SumsInNumbers | scripts/decrypt_upf.py:14-25 | A block takes 32 rounds; round j works with (0xC6ED3720 - j * 0x9E3769B9) mod 2^32, the last with 0x9E3769B9. |
| KnownAnswer.FirstRoundInNumbers | scripts/decrypt_upf.py:18-25 | The first round of one block under one key, in numbers. |
| KnownAnswer.BlockInBytes | scripts/decrypt_upf.py:29-38 | Eight bytes are two big-endian words, before and after. |
| Upf.TeaDecrypt | scripts/decrypt_upf.py:29-38 | The in-place loop equals the block-wise map for every length. |
| Upf.DecryptedBlockwise | scripts/decrypt_upf.py:32-37 | Output block i depends on input block i alone. |
| Upf.DecryptedTail | scripts/decrypt_upf.py:32-38 | The bytes after the last whole block are untouched. |
| Upf.BufferRoundTrip | scripts/decrypt_upf.py:29-38 | Buffer encryption and decryption undo each other for every length. |
| UpfFile.ParseUpf | scripts/decrypt_upf.py:41-126 | The offset loop returns the specified chunks, or the specified failure, for every file. |
| UpfFile.LayoutIsPartition | scripts/decrypt_upf.py:84-99 | For a file of the expected size the chunks tile the file from header to key in order and the key is exactly the last four bytes. |
| UpfFile.AssembledFileParses | scripts/decrypt_upf.py:64-126 | Parsing a file assembled from encrypted chunks and key returns the chunks if and only if none is empty or ends inside a leading long jump. |
| UpfFile.FileInBytesParses | scripts/decrypt_upf.py:46-126 | For each firmware type, a file whose 128-byte header writes the chunk lengths high digit first in bytes 38, 42 and 60, as that type uses them, parses into its chunks if and only if each is showable. |
| UpfFile.CutFileFails | scripts/decrypt_upf.py:18-20 | For each firmware type, a file that breaks off inside its key makes the script fail for want of a key if and only if it gets to a chunk of eight bytes or more. |
| UpfFile.BadFilesFail | scripts/decrypt_upf.py:46-82 | Bad magic, a short header and an unknown type are reported exactly for the files whose bytes say so. |
| UpfFile.EmptyChunkFails | scripts/decrypt_upf.py:84-126 | With every key there is a file, announcing one chunk of length zero, on which the script fails. |
| Reports.BuildSysparamPayload | src/protocol.rs:34-51 | The 14 bytes in their places, the rest zero. |
| Reports.PayloadRoundTrip | src/protocol.rs:34-51 | Volume and date are read back exactly for the years 0 to 65535. |
| Reports.Crc | src/protocol.rs:85-87 | The checksum is the low byte of the sum of the first 19 bytes, and no running sum on the way overflows its 16 bits. |
| Reports.OneChangedByteIsNoticed | src/protocol.rs:85-87 | Changing any one byte of a packet breaks its checksum. |
| Reports.BuildOutputReport | src/protocol.rs:54-65 | The array filled in place is header, padded payload and checksum. |
| Reports.OutputRoundTrip | src/protocol.rs:54-65 | An output report carries command and payload if and only if the payload has at most 14 bytes. |
| Reports.BuildFeatureReport | src/protocol.rs:68-82 | The array filled in place is header and padded payload. |
| Reports.FeatureRoundTrip | src/protocol.rs:68-82 | A feature report carries command and payload if and only if the payload has at most 512 bytes. |
| Reports.TransportsAgree | src/protocol.rs:54-82 | Both transports deliver the same command, volume and date. |
| Reports.SyncOnTheWire | src/protocol.rs:18-87 | A sync on the wire of each transport, byte by byte with its checksum. |
| Reports.QueryOnTheWire | src/hid.rs:221-229 | A link query on the wire, byte by byte. |

## Left out

- Device discovery and I/O (hidraw, sysfs, ioctl) and the candidate loop of `connect`: any outcome of a search, a send or a link query is possible.
- libpulse and the computation of the percentage: a monitor may see any byte as a volume.
- Real time, atomics ordering and thread joins: a clock that never runs back and interleaved steps; a timeout lasts at least the deadline and an event may be taken after any wait.
- The `Disconnected` branch of `recv_timeout` and the failing `send` of a monitor: the main thread holds both ends of the channel until it returns.
- Overflow of `Duration`: ticks are unbounded.
- Logging, the `logged_waiting` flag, arguments, exit codes, one-shot mode, packaging.
- scripts/rk-m87-sync.py: an earlier and simpler loop.
- UpfFile.ParseUpf: does not model printing, the written files or the size warning; a file the script fails on part of the way has written the chunks before it.
- chrono's calendar: the date fields are given.
- Reports.DecodeOutput and Reports.DecodeFeature have no counterpart in the repository: they are the receivers the framing is for.
