# Gm7Can device core, modelled in Dafny

`Gm7Can` is the communication core of one device on a CAN bus. The
device exchanges short fixed-size messages with controllers, nodes and
read-only listeners. The class has five parts:

- **A dual ring buffer.** It stages received (RX, direction 0) and
  outgoing (TX, direction 1) messages in 64 slots per direction. Each
  direction has a read cursor, a write cursor and a count. A write to a
  full direction is dropped, and reads return messages oldest first.
- **A receive router.** Heartbeat frames go to presence tracking. An
  addressed frame whose target uid is not this device is dropped. Every
  other frame is stored in RX under its parsed uid and pmid.
- **A presence and registration state machine.** Remote heartbeats and
  a heartbeat timeout drive the online flag. The registration status
  moves between UNREGISTERED, REGISTRATION_PENDING and REGISTRAR. No
  path leads to REGISTERED.
- **Status change detection and role gating.** `sendStatusIfChanged`
  compares the live status with a shadow copy of the last one staged.
  Every transmit path returns early for the READ_ONLY role.
- **The per-tick scheduler `loop()`.** It drains at most 8 received
  frames. It then checks four interval gates in order:
  - a 5 ms TX flush of at most 10 messages;
  - a 10 ms status, presence and registration gate;
  - the heartbeat gate;
  - the device-info announcement gate.

The project has these modules:

- `CanTypes` (`can_types.dfy`): machine integers, the slot type
  `CanBuffer`, the registration states and a `Protocol` value. The
  protocol codec appears only through `Protocol`: its constants, ranges,
  role lookups and encoders.
- `StagingBuffer` (`staging_buffer.dfy`): one direction of the ring as
  a value `Lane`. A lane holds the 64 slots, the two cursors and the
  count. `Contents` is the queue the lane holds, and `Stage`/`StageAll`
  are what one write or a run of writes does to a lane. The module also
  proves the queue laws: FIFO order, drop-on-full, and that the bytes
  after a short write keep their old contents.
- `Router` (`router.dfy`): where `rxCan` sends a frame.
- `Registration` (`registration.dfy`): the registration step as a
  transition function, and its behaviour over runs of ticks.
- `Timing` (`timing.dfy`): the wrapping 32-bit millisecond clock, the
  interval test of the gates and the heartbeat timeout.
- `Scheduler` (`scheduler.dfy`): the bounded receive drain of `loop()`
  and the batch constants.
- `Identity` (`identity.dfy`): the short uid and the `strlcpy`-bounded
  names that `begin()` derives.
- `Gm7CanDevice` (`gm7can.dfy`): the class `Gm7Can`. Its methods change
  fields in place: the presence flag, the registration status, the
  timestamps, the status and its shadow, the Chrono start times and the
  two lanes of the ring buffer.
  - The ghost field `sent` logs the frames written to the bus.
  - The ghost field `routed` logs the frames handed to `rxCan`.
  - `Valid()` says that both lanes keep the ring invariant: the write
    cursor is `count` slots past the read cursor, modulo 64, and every
    slot has the payload width.

The methods that touch the ring buffer give the new lane of each
direction they change as a function of the old lane:
- a write is `Stage` and a run of writes is `StageAll`;
- `k` reads are `Drained`;
- a batch of received frames is `ReceiveAll`, which applies `rxCan`'s
  effect (`ReceiveOne`) to the RX lane, presence and the two receive
  stamps, frame by frame.

A direction a method does not change is stated unchanged. The lemmas of
`StagingBuffer` turn these lanes into statements about the queues, and
`ReceiveAllStamps` turns the receive fold into presence and stamps.

The gate methods state each fired gate's effect: what is flushed or
sent, what is staged, the new presence, the registration step and the
new device-update interval. `FixedRateGates` gives the TX lane after
the flush and the 10 ms gate. `Gates` and `Loop` state these for one
tick:
- what goes out on the bus;
- the presence, in both directions;
- the registration step;
- the Chrono restarts;
- the device-update interval.

`Loop` also gives the receive side after the drain. Neither states the
TX lane after the whole tick (see Left out).

The clock is an explicit argument `now: uint32`. A Chrono `hasPassed(i)`
is read as "at least `i` ms elapsed on the wrapping clock since the last
restart".

## Model

| member | source | states |
|---|---|---|
| CanTypes.RegistrationCode | Gm7Can.h:95-100 | The four registration states have the codes UNREGISTERED = 0, REGISTRATION_PENDING = 1, REGISTERED = 2 and REGISTRAR = 3, in both directions, and no other code. |
| CanTypes.Protocol.TxLength | Gm7Can.cpp:106-107 | The length `min(CAN_PAYLOAD_MESSAGE_BYTES, txMessage.len)` used by every transmit path is at most both and equal to one of them. |
| Identity.Low16IsLowBits | Gm7Can.cpp:18 | deviceUid16 is the low 16 bits of deviceUid64: the long uid is the short uid plus a multiple of 2^16, uids that differ only above bit 15 share a short uid, and a uid below 2^16 is its own short uid. |
| Identity.Strlcpy | Gm7Can.cpp:20-22 | A name copied with `strlcpy(dst, src, P)` has fewer than P characters, is a prefix of the source, holds no NUL, and stops early only at the end of the source or at its NUL. |
| Timing.HasPassed | Gm7Can.cpp:309-329 | A gate's Chrono has passed its interval when at least that many ms elapsed since its restart; when the clock did not wrap in between, this is the plain difference `now - start >= interval`. |
| Timing.TimedOut | Gm7Can.cpp:58-65 | The wrap-safe presence timeout: when the clock did not wrap since the last heartbeat it is the plain test `now - last > threshold`, and a device is never timed out at the instant of the heartbeat. |
| Timing.TimedOutAsWritten | Gm7Can.cpp:62 | The sum test as written: while `last + threshold` does not wrap, it times out exactly when `now - last > threshold` in integers. |
| Timing.Elapsed | Gm7Can.cpp:309-329 | The elapsed time of a gate's Chrono is the span that leads from its start to `now` on the wrapping 32-bit clock. |
| Timing.ElapsedLater | Gm7Can.cpp:309-329 | Elapsed time undoes stepping the clock forward by any span it can represent. |
| Timing.TimedOutExactly | Gm7Can.cpp:58-65 | With the wrap-safe test, a device whose last heartbeat was `d` ms ago is timed out exactly when `d` exceeds the threshold, wherever on the clock the heartbeat fell. |
| Timing.AsWrittenAgreesWithoutWrap | Gm7Can.cpp:62 | While `last + threshold` does not wrap and `last <= now`, the sum test as written and the wrap-safe test agree. |
| Timing.AsWrittenTimesOutEarly | Gm7Can.cpp:62 | The sum test as written times a device out 1 ms after a heartbeat just before the clock wraps, although the threshold has not passed. |
| Timing.AsWrittenTimesOutLate | Gm7Can.cpp:62 | After a heartbeat 40 ms before the clock wraps, the sum test as written fires only in the 7 ms window from 0xFFFF_FFF9 to the wrap. Two presence checks 10 ms apart, at 0xFFFF_FFF8 and 0x2, both keep the device online, although at 0x2 it is timed out (42 ms against 32 ms). Every reading up to the sum keeps it online, so it stays online until the clock comes round, about 49.7 days later. |
| Registration.Step | Gm7Can.cpp:126-142 | One registration step never enters REGISTERED, and only a device that is not READ_ONLY changes its state. |
| Registration.StepCases | Gm7Can.cpp:126-142 | One registration step: READ_ONLY keeps its state; CONTROLLER becomes REGISTRAR; offline, every state but REGISTRAR becomes UNREGISTERED; online, UNREGISTERED becomes REGISTRATION_PENDING and the rest stay; a registration is requested exactly when an UNREGISTERED device moves to REGISTRATION_PENDING. |
| Registration.RunNeverRegisters | Gm7Can.cpp:126-154 | No run of maintenance ticks leads to REGISTERED from any other state. |
| Registration.ControllerEndsRegistrar | Gm7Can.cpp:130-133 | A controller is REGISTRAR after any non-empty run of ticks, whatever its presence. |
| Registration.ReadOnlyKeepsStatus | Gm7Can.cpp:127-129 | A READ_ONLY device never changes its registration state. |
| Router.Classify | Gm7Can.cpp:203-210 | A frame goes to presence exactly when its pmid is in the heartbeat range, and it is rejected only when it is addressed and names another uid. |
| Router.ClassifyCases | Gm7Can.cpp:35-54 | A frame goes to presence exactly when its pmid is in the heartbeat range; an addressed non-heartbeat frame is stored exactly when its target uid is this device's; every other frame is stored. |
| Scheduler.Drain | Gm7Can.cpp:302-306 | The corrected drain routes min(8, waiting) frames, and the frames routed followed by those still waiting are the original frames. |
| Scheduler.DrainAsWritten | Gm7Can.cpp:302-306 | As written, with at most 8 frames waiting all are routed; with more, exactly 8 are routed and the routed frames, the one frame after them and the frames still waiting make up the original frames. |
| Scheduler.DrainTakesBatch | Gm7Can.cpp:302-306 | The corrected drain routes the first min(8, waiting) frames in arrival order and leaves all the others waiting: routed and waiting together are the original frames. |
| Scheduler.DrainAsWrittenLosesOne | Gm7Can.cpp:303 | As written, with more frames waiting than the batch allows, the frame just after the batch is taken from the driver and neither routed nor left waiting. |
| Scheduler.NinthFrameLost | Gm7Can.cpp:302-306 | With nine frames waiting, the drain as written routes eight and leaves none waiting; the corrected drain leaves the ninth waiting. |
| StagingBuffer.Overlaid | Gm7Can.cpp:360-364 | The slot a write of `n` bytes leaves keeps the payload width of the reused slot. |
| StagingBuffer.Written | Gm7Can.cpp:360-369 | Writing an entry of the slot width at the write cursor and advancing the cursor and the count keeps the ring invariant. |
| StagingBuffer.Taken | Gm7Can.cpp:343-348 | Advancing the read cursor with wrap-around and counting one fewer keeps the cursors and the count within the ring. |
| StagingBuffer.Wrap | Gm7Can.cpp:345-348 | A cursor that is incremented and reset at 64 stays in 0..63. |
| StagingBuffer.OverlaidCarries | Gm7Can.cpp:360-364 | A write of `n` bytes leaves the uid, the pmid and the first `n` payload bytes of the request in the slot; the bytes after the n-th keep their old contents. |
| StagingBuffer.Contents | Gm7Can.h:90-93 | The queue a direction holds has exactly `canBufferStorageCountAvailable` elements, taken from the read cursor on and wrapping at 64. |
| StagingBuffer.EmptyLane | Gm7Can.h:90-93 | A direction whose cursors and count are all 0 keeps the ring invariant and holds the empty queue. |
| StagingBuffer.QueuedSized | Gm7Can.h:85-89 | Every queued slot has the full payload width and no length field of its own. |
| StagingBuffer.WriteAppends | Gm7Can.cpp:360-369 | A write to a direction that is not full appends the new slot to the queue and overwrites no queued slot. |
| StagingBuffer.ReadTakesHead | Gm7Can.cpp:343-349 | The slot at the read cursor is the head of the queue; a read leaves the rest of the queue in order and keeps the ring invariant. |
| StagingBuffer.Stage | Gm7Can.cpp:353-371 | A write, accepted or dropped, keeps the ring invariant. |
| StagingBuffer.StagePushes | Gm7Can.cpp:353-371 | A write pushes the written slot onto the queue, and a write to a full direction leaves the queue as it was. |
| StagingBuffer.StageViews | Gm7Can.cpp:353-371 | As a reader sees it, a write pushes the request's uid, pmid and first `n` bytes. |
| StagingBuffer.StageAll | Gm7Can.cpp:107-119 | A run of writes keeps the ring invariant. |
| StagingBuffer.StageAllInOrder | Gm7Can.cpp:107-119 | As a reader sees it, a run of writes pushes each request in turn, and a request is dropped when the direction is full. |
| StagingBuffer.StageAllKeepsFirst | Gm7Can.cpp:107-119 | A run of writes keeps the queue as it was and adds as many requests as fit, oldest first; the rest are lost. |
| StagingBuffer.StageAllConcat | Gm7Can.cpp:149-152 | Two runs of writes in a row are one run of the requests concatenated. |
| StagingBuffer.PushAllAppends | Gm7Can.cpp:357-365 | Writes that fit are appended in order. |
| StagingBuffer.PushAllDropsOverflow | Gm7Can.cpp:357-359 | Writes beyond the capacity of 64 are dropped and the queue keeps the first ones. |
| StagingBuffer.PopNTakesFront | Gm7Can.cpp:340-349 | `n` reads in a row return the first min(n, queue length) elements in order and leave the rest; reads of an empty queue return nothing. |
| StagingBuffer.FifoOrder | Gm7Can.cpp:336-371 | Whatever fits into an empty direction is read back in the order it was written, and the direction is empty afterwards. |
| StagingBuffer.Drained | Gm7Can.cpp:340-349 | `k` reads in a row keep the ring invariant, count `k` fewer and leave the slots and the write cursor untouched. |
| StagingBuffer.DrainedDrops | Gm7Can.cpp:340-349 | `k` reads in a row leave exactly the queue without its first `k` slots. |
| StagingBuffer.DropOnFull | Gm7Can.cpp:357-359 | A write to a full direction changes nothing; after one read the next write is accepted and becomes the newest element. |
| Gm7CanDevice.Gm7Can.TxFrame | Gm7Can.cpp:228-231 | The data of the frame sent for a staged slot is a prefix of the slot's payload of at most TxLength bytes, and exactly TxLength bytes when the payload is that long. |
| Gm7CanDevice.Gm7Can.StatusMessage | Gm7Can.cpp:249-255 | The status message carries the device's short uid and, for a well-formed codec, a full payload. |
| Gm7CanDevice.Gm7Can.FlushedFrames | Gm7Can.cpp:309-312 | A 5 ms gate check sends at most 10 frames, and sends any only when the gate fires and the role is not READ_ONLY. |
| Gm7CanDevice.Gm7Can.HeartbeatFrames | Gm7Can.cpp:321-324 | A heartbeat gate check sends at most one frame, and only when the gate fires and the role is not READ_ONLY. |
| Gm7CanDevice.Gm7Can.DeviceInfo | Gm7Can.cpp:105-119 | sendDeviceInfo stages five messages, and each of them carries at least the transmit length in bytes. |
| Gm7CanDevice.Gm7Can.RegistrationRequest | Gm7Can.cpp:145-154 | Each message of a registration request carries at least the transmit length in bytes. |
| Gm7CanDevice.Gm7Can.constructor | Gm7Can.h:52-93 | After Gm7Can() and begin(): both directions are empty with cursors and count 0; the device is offline and UNREGISTERED (code 0); the status is (0, 0, 1) and equals its shadow, so sendStatusIfChanged would stage nothing. The identity follows begin(): the type id widened, the device type extracted from it, deviceUid16 the low 16 bits of deviceUid64, and the three names strlcpy-bounded to fewer than P characters. |
| Gm7CanDevice.Gm7Can.WriteToCanBufferStorage | Gm7Can.cpp:353-371 | It returns true exactly when the direction is 0 or 1 and not full. On a bad direction nothing changes. Otherwise the written direction becomes `Stage` of the old one, with uid, pmid and the first min(len, P) bytes, and the other direction is unchanged. |
| Gm7CanDevice.Gm7Can.WriteOwnToCanBufferStorage | Gm7Can.cpp:374-381 | The same as WriteToCanBufferStorage, with the device's own deviceUid16 as uid. |
| Gm7CanDevice.Gm7Can.ReadFromCanBufferStorage | Gm7Can.cpp:336-350 | A bad direction returns None and changes nothing. On a valid direction the result and the new queue are a pop of the old queue: None on an empty queue, otherwise the oldest slot, with that direction's read cursor advanced and the other direction unchanged. |
| Gm7CanDevice.Gm7Can.GoOnlineOverCan | Gm7Can.cpp:271-273 | The device is online afterwards. |
| Gm7CanDevice.Gm7Can.GoOfflineOverCan | Gm7Can.cpp:275-277 | The device is offline afterwards. |
| Gm7CanDevice.Gm7Can.ReceiveRemoteHeartbeat | Gm7Can.cpp:90-96 | The device is online afterwards, with the last remote heartbeat and the last RX activity both at `now`. |
| Gm7CanDevice.Gm7Can.CheckOnlineStatus | Gm7Can.cpp:58-65 | It does nothing while offline. While online, the device goes offline exactly when more than the threshold has passed since the last remote heartbeat, using the wrap-safe test. |
| Gm7CanDevice.Gm7Can.StoreRxCanToStorageBuffer | Gm7Can.cpp:35-54 | An addressed frame for another uid changes nothing, not even the RX timestamp. A heartbeat-range frame only refreshes the RX timestamp. Every other frame refreshes it and is written to RX under the parsed uid and pmid. TX is never touched. |
| Gm7CanDevice.Gm7Can.RxCan | Gm7Can.cpp:203-210 | Heartbeats drive presence and are never stored. Frames for other devices are dropped with no state change. The rest are written to RX. TX is untouched. An RX queue without heartbeat pmids stays without them. The new receive side is `ReceiveOne` of the old. |
| Gm7CanDevice.Gm7Can.ReceiveAllStamps | Gm7Can.cpp:203-210 | After rxCan has handled a batch, the device is online exactly when it was before or a heartbeat was among the frames. The heartbeat stamp is `now` exactly when a heartbeat came, and the receive stamp is `now` exactly when some frame was accepted; otherwise each keeps its value. |
| Gm7CanDevice.Gm7Can.TxCan | Gm7Can.cpp:212-218 | A READ_ONLY device sends nothing and keeps its TX timestamp. Any other role appends the frame to the bus log and sets the TX timestamp to `now`. |
| Gm7CanDevice.Gm7Can.SendHeartbeat | Gm7Can.cpp:74-87 | READ_ONLY, or a role without a heartbeat pmid, sends nothing and changes no timestamp. Otherwise one heartbeat frame goes out under the role's heartbeat pmid and deviceUid16, and both timestamps become `now`. |
| Gm7CanDevice.Gm7Can.SendTxCanFromStorageBuffer | Gm7Can.cpp:221-235 | READ_ONLY changes nothing. Otherwise the first min(queue length, 10) TX messages are sent in FIFO order, each as its identifier and first TxLength bytes, and removed from the queue: the TX lane is `Drained` by that many reads. The TX timestamp is `now` when anything was sent. RX is untouched. |
| Gm7CanDevice.Gm7Can.SendOldestTx | Gm7Can.cpp:227-232 | One pass of the flush loop reads the oldest TX message (the lane is `Taken`), sends its frame and sets the TX timestamp to `now`. RX is untouched. |
| Gm7CanDevice.Gm7Can.SendNextTx | Gm7Can.cpp:227-232 | After `k` passes of the flush loop over a lane, the next pass sends the frame of the lane's `k`-th queued slot and leaves the lane drained by `k + 1` reads. |
| Gm7CanDevice.Gm7Can.BuildTxFrame | Gm7Can.cpp:228-231 | The frame built for a staged slot has the slot's encoded identifier and exactly its first TxLength payload bytes. |
| Gm7CanDevice.Gm7Can.SendDeviceInfo | Gm7Can.cpp:99-122 | READ_ONLY changes nothing. Otherwise the five device-info messages (serial, type id, model, vendor, short name) are staged in that order and the device-update interval is redrawn. |
| Gm7CanDevice.Gm7Can.SendTimerData | Gm7Can.cpp:158-166 | READ_ONLY changes nothing. Otherwise one timer message under the given pmid is staged in TX. |
| Gm7CanDevice.Gm7Can.SendMainTimer | Gm7Can.cpp:168-177 | READ_ONLY, or a role without a main-timer pmid, stages nothing. Otherwise one timer message is staged under the role's main-timer pmid. |
| Gm7CanDevice.Gm7Can.SendValidationTimer | Gm7Can.cpp:179-188 | The same, for the validation-timer pmid. |
| Gm7CanDevice.Gm7Can.SendInternalTimer | Gm7Can.cpp:190-199 | The same, for the internal-timer pmid. |
| Gm7CanDevice.Gm7Can.UpdateDeviceGameStatusAndProgress | Gm7Can.cpp:237-241 | The live status, progress and progress-max take the given values, and nothing else changes. |
| Gm7CanDevice.Gm7Can.SendStatus | Gm7Can.cpp:245-259 | READ_ONLY, or a role without a status pmid, stages nothing and keeps the shadow. Otherwise one status message is staged and the shadow equals the live status. |
| Gm7CanDevice.Gm7Can.SendStatusIfChanged | Gm7Can.cpp:262-269 | When the status equals its shadow, or status is disabled for the role, nothing changes. Otherwise one status message is staged. Afterwards the status is settled, so a second call without an update stages nothing. |
| Gm7CanDevice.Gm7Can.RequestRegistration | Gm7Can.cpp:145-154 | A type id outside the open device-type section changes nothing. Inside it, TX gets the type-id message, then the device info (unless READ_ONLY), then the status (when enabled), in that order. The device-update Chrono restarts at `now` and the interval is redrawn unless READ_ONLY. When status is enabled the shadow equals the live status afterwards; otherwise the shadow is kept. |
| Gm7CanDevice.Gm7Can.UpdateDeviceRegistration | Gm7Can.cpp:126-142 | The new status is one registration step of the old one. Nothing else changes unless an online UNREGISTERED node requests registration with a type id in the section. Then TX gets the registration request, the device-update Chrono restarts, the interval is redrawn, and the shadow follows sendStatus. The node becomes REGISTRATION_PENDING even when nothing is staged. |
| Gm7CanDevice.Gm7Can.ReceiveBatch | Gm7Can.cpp:302-306 | The first min(8, waiting) frames are routed in arrival order and the rest stay waiting. The RX lane, presence and the two receive stamps are `ReceiveAll` of the routed frames, so an empty drain leaves them as they were. TX is untouched. |
| Gm7CanDevice.Gm7Can.FlushGate | Gm7Can.cpp:309-312 | The 5 ms Chrono restarts exactly when it has passed. If it has not passed, or the device is READ_ONLY, nothing is sent. Otherwise the first min(queue length, 10) TX messages are sent in order and removed from the queue (the lane is `Drained`), and the TX timestamp is `now` when anything was sent. |
| Gm7CanDevice.Gm7Can.ServiceStatus | Gm7Can.cpp:316-317 | A changed status is staged (unless status is disabled for the role) and the status is settled afterwards. An online device stays online exactly when its last remote heartbeat has not timed out. |
| Gm7CanDevice.Gm7Can.Maintain | Gm7Can.cpp:316-318 | The fired 10 ms gate: presence is checked, registration takes one step from the checked presence, and the status is settled. TX gets the status (unless settled), then the registration request when one is made. A request restarts the device-update Chrono and redraws the interval; otherwise both are kept. A READ_ONLY device stages nothing and keeps its registration. |
| Gm7CanDevice.Gm7Can.MaintenanceGate | Gm7Can.cpp:314-319 | The 10 ms Chrono restarts exactly when it has passed. The TX lane is `MaintainedLane` of the old one when it fires, and unchanged otherwise. If it has not passed, presence, registration, status shadow and device-update Chrono stay. If it has, the effects are those of Maintain. No device becomes REGISTERED. |
| Gm7CanDevice.Gm7Can.FixedRateGates | Gm7Can.cpp:309-319 | The 5 ms gate and then the 10 ms gate. The frames sent are exactly the flushed batch. The TX lane is the old one drained by the flushed batch (when the 5 ms gate fires for a role that is not READ_ONLY), then given the status and registration request of `MaintainedLane` (when the 10 ms gate fires). Presence, registration and the device-update interval change only when the 10 ms gate fires, and then as Maintain states. |
| Gm7CanDevice.Gm7Can.IntervalGates | Gm7Can.cpp:321-329 | The heartbeat gate and then the device-update gate, each restarting exactly when its interval has passed. The frames sent are exactly the heartbeat, carrying `now` and the previous heartbeat time, when that gate fires for a role with a heartbeat pmid. The device info is staged and the interval redrawn exactly when the device-update gate fires and the role is not READ_ONLY. |
| Gm7CanDevice.Gm7Can.Gates | Gm7Can.cpp:309-329 | The four gates in order. The frames sent are the flushed batch followed by the heartbeat. The device is online afterwards exactly when it was before and, if the 10 ms gate fired, its last remote heartbeat has not timed out. When the 10 ms gate fires, registration takes one step from that presence; otherwise registration stays. The device-update Chrono and interval are those of a registration request (if one is made), then of the device-update gate, which fires on the resulting start and interval and redraws the interval unless READ_ONLY. A READ_ONLY device sends and stages nothing. |
| Gm7CanDevice.Gm7Can.Loop | Gm7Can.cpp:300-330 | One tick routes the first min(8, waiting) frames and leaves the rest waiting. The RX lane and the two receive stamps are `ReceiveAll` of the routed frames. The device is online afterwards exactly when it is online after the drain and, if the 10 ms gate fired, the drain's last remote heartbeat has not timed out. The frames sent are the flushed TX batch followed by the heartbeat, and the TX timestamp is `now` exactly when something was sent. When the 10 ms gate fires, registration takes one step from the checked presence; otherwise registration stays. The device-update Chrono and interval are as for `Gates`. Each of the first three gates restarts exactly when its interval has passed. A READ_ONLY device sends and stages nothing. No tick makes a device REGISTERED. |

## Left out

- **Update in place of the storage.** `canRxBufferStorage[2][64]` and the
  three cursor/count arrays are a `lanes: seq<Lane>` field. The methods
  reassign it, which also covers the per-byte copy loop of
  `writeToCanBufferStorage`. The model therefore does not capture
  aliasing of the 2×64 array or the order of the individual element
  stores within one write or read.
- **The FlexCAN_T4 driver calls** are not modelled: `begin`, `setClock`,
  `setBaudRate`, `enableFIFO`, `write` and `read` (Gm7Can.cpp:25-30,
  216, 303).
  - Frames waiting in the driver are a sequence given to `Loop`.
  - Written frames are appended to the ghost log `sent`.
- **The Gm7CanProtocol codec** is not part of this model. Its message-id
  codec, payload encoders, target-uid extraction, role lookups (with
  their 0 sentinel), ranges, intervals and payload size P are fields of
  the `Protocol` value, with no byte layout.
  - `Protocol.Wellformed` states what the core relies on: 0 < P ≤ 8, a
    message length ≤ 8, and encoders that fill P bytes.
  - `sendTimerData`'s two `addUint32ToBuffer` calls are one encoder.
- **`randomizeDeviceUpdateIntervalOffset`** is random, so the new
  interval is a method parameter.
- **`millis()` and the Chrono library** are not part of this model.
  `now` is a parameter, and each gate keeps the time of its last
  restart. `hasPassed` is taken to be the wrap-safe elapsed test.
- **`prepareMessage`** is not modelled, along with the `txMessage.flags`
  and the frame template (Gm7Can.cpp:68-71). Only the message length
  remains, as `Protocol.messageLength`.
- **Bytes past TxLength of a frame.** A frame carries exactly its first
  `TxLength()` bytes. When `txMessage.len` exceeds P, the real frame's
  bytes from P on are whatever the template last held; they are not
  modelled.
- **The getters** (Gm7Can.cpp:279-298) are plain field reads and are not
  modelled. The RX/TX timestamps and the online flag they return are
  fields of the class. `canActivityTresholdMillis` is only read by its
  getter and is not modelled.
- **`initialize()`** is declared (Gm7Can.h:112) but never defined, so it
  has nothing to model.
- **The commented-out controller check** at Gm7Can.cpp:47-49 is dead
  code.
- **`begin()` is folded into the constructor.** The model has no state in
  which methods run before `begin()`, because the identity fields are
  set once.
- **Uninitialised timestamps.** `lastCanRxMillis` and `lastCanTxMillis`
  have no initialiser in the header (Gm7Can.h:55-56). The constructor
  takes them as 0.
- **A read with no value.** `readFromCanBufferStorage` returns no value
  on a bad direction or an empty buffer, which is undefined in C++. The
  model returns `None`.
- **`loop()` is split into** `ReceiveBatch` and `Gates`, in the
  source's order. `Gates` calls `FixedRateGates` (the 5 ms and 10 ms
  gates) and then `IntervalGates` (the heartbeat and device-update
  gates). The work of a fired 10 ms gate is `Maintain`, which calls
  `ServiceStatus` and then `UpdateDeviceRegistration`.
- Gm7CanDevice.Gm7Can.Gates: does not state the TX lane after a tick or
  the status shadow. The TX lane is stated for each half of the tick:
  by `FixedRateGates` for the flush and the 10 ms gate, and by
  `IntervalGates` for the device-update gate.
- Gm7CanDevice.Gm7Can.Loop: does not state the TX lane after a tick or
  the status shadow, for the same reason as `Gates`.
- Identity.Strlcpy: counts characters, not bytes. Names are taken as one
  byte per character (ASCII). A multi-byte UTF-8 name is therefore not
  truncated at the byte bound as C would truncate it, and the model
  never splits a character.
- Gm7CanDevice.Gm7Can.CheckOnlineStatus: uses the wrap-safe timeout
  test, not the 32-bit sum as written (see Findings).
- Gm7CanDevice.Gm7Can.ReceiveBatch: drains with the counter tested first,
  not as written (see Findings).

## Findings

| source | as written | input that shows it | evidently intended | confidence | as-written member | corrected member |
|---|---|---|---|---|---|---|
| Gm7Can.cpp:303 | `t4CanObject.read(rxMessage) && batchRxMaxCount > 0`: the driver read is evaluated before the counter, so when the batch is used up one more frame is taken from the driver and dropped | nine frames waiting at the start of a tick: eight are routed, the ninth is read into `rxMessage` and never routed | test the counter first, so that at most eight frames are taken and the rest stay in the driver | high, not executed | Scheduler.DrainAsWrittenLosesOne | Scheduler.DrainTakesBatch |
| Gm7Can.cpp:62 | `lastRemoteHeartbeatMillis + threshold < millis()` on uint32: the sum wraps near the top of the clock | last = 0xFFFFFFF0, threshold = 32, now = 0xFFFFFFF1 times out after 1 ms. Late case: last = 0xFFFFFFD8, threshold = 32. The sum test fires only from 0xFFFFFFF9 to the wrap, a 7 ms window shorter than the 10 ms gate. With checks at 0xFFFFFFF8 and 0x2 the device stays online 42 ms after the heartbeat, and then until the clock comes round | the wrap-safe `now - last > threshold` | high, not executed | Timing.AsWrittenTimesOutEarly | Timing.TimedOutExactly |
