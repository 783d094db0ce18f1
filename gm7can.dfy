/** The device core: one Gm7Can object holding the dual ring buffer, the
    presence and registration state, the status shadow and the four gate
    timers, with the operations that change them in place.

    The bus driver, the clock and the random jitter are not part of the
    object: received frames, the current millisecond reading `now` and the
    next randomised device-update interval are parameters; frames written to
    the bus are recorded in the ghost log `sent`. */
module Gm7CanDevice {
  import opened CanTypes
  import opened StagingBuffer
  import opened Timing
  import opened Router
  import Registration
  import Scheduler
  import Identity

  /** The part of the device state that received frames change. */
  datatype Reception = Reception(rx: Lane, online: bool, lastCanRx: uint32, lastRemoteHeartbeat: uint32)

  class Gm7Can {
    /** The protocol codec (the member canProtocol). */
    const protocol: Protocol

    /** Start instants of the four Chrono gates. */
    var chrono200FpsStart: uint32
    var chrono100FpsStart: uint32
    var chronoHeartbeatStart: uint32
    var chronoDeviceUpdateStart: uint32
    /** The device-update interval, re-randomised after every announcement. */
    var deviceUpdateIntervalMillis: uint32

    var currentRegistrationStatus: RegistrationStatus
    var isOnlineOverCan: bool
    var lastCanRxMillis: uint32
    var lastCanTxMillis: uint32
    var lastHeartBeatMillis: uint32
    var lastRemoteHeartbeatMillis: uint32

    /** Identity, set once by begin() (see the constructor). */
    const canDeviceType: uint8
    const deviceUid16: uint16
    const deviceUid64: uint64
    const deviceTypeId: uint32
    const deviceModel: seq<char>
    const deviceShortName: seq<char>
    const deviceVendor: seq<char>

    /** Live status and the shadow copy of the last one staged. */
    var deviceStatus: uint32
    var deviceProgress: uint16
    var deviceProgressMax: uint16
    var lastDeviceStatus: uint32
    var lastDeviceProgress: uint16
    var lastDeviceProgressMax: uint16

    /** The dual ring buffer, one Lane per direction (index StorageIndexRx
        and StorageIndexTx). */
    var lanes: seq<Lane>

    /** Frames handed to rxCan, and frames written to the bus, in order. */
    ghost var routed: seq<CanFrame>
    ghost var sent: seq<Frame>

    ghost predicate Valid()
      reads this`lanes
    {
      && protocol.Wellformed()
      && |lanes| == 2
      && LaneValid(lanes[StorageIndexRx], protocol.payloadBytes)
      && LaneValid(lanes[StorageIndexTx], protocol.payloadBytes)
    }

    /** The queue of direction `d`, oldest first. */
    ghost function Queue(d: uint8): seq<CanBuffer>
      requires |lanes| == 2 && d < 2 && Shaped(lanes[d])
      reads this`lanes
    {
      Contents(lanes[d])
    }

    ghost function RxQueue(): seq<CanBuffer>
      requires |lanes| == 2 && Shaped(lanes[StorageIndexRx])
      reads this`lanes
    {
      Contents(lanes[StorageIndexRx])
    }

    ghost function TxQueue(): seq<CanBuffer>
      requires |lanes| == 2 && Shaped(lanes[StorageIndexTx])
      reads this`lanes
    {
      Contents(lanes[StorageIndexTx])
    }

    /** The frame sendTxCanFromStorageBuffer writes for a staged slot: its
        identifier and the first TxLength() bytes of its payload (every
        queued slot has payloadBytes >= TxLength() bytes). */
    function TxFrame(slot: CanBuffer): (f: Frame)
      ensures f.data <= slot.payload && |f.data| <= protocol.TxLength()
      ensures protocol.TxLength() <= |slot.payload| ==> |f.data| == protocol.TxLength()
    {
      Frame(protocol.encodeMessageId(slot.pmid, slot.uid), slot.payload[..Min(protocol.TxLength(), |slot.payload|)])
    }

    function TxFrames(slots: seq<CanBuffer>): (frames: seq<Frame>)
      ensures |frames| == |slots|
    {
      if slots == [] then [] else [TxFrame(slots[0])] + TxFrames(slots[1..])
    }

    /** The frames the 5 ms gate puts on the bus when it is checked at `now`
        with its Chrono started at `start` and `queue` waiting in TX: at most
        ten, oldest first; none when the gate does not fire or the role is
        READ_ONLY. */
    function FlushedFrames(now: uint32, start: uint32, queue: seq<CanBuffer>): (frames: seq<Frame>)
      ensures |frames| <= Scheduler.TxBatch
      ensures frames != [] ==> HasPassed(now, start, Scheduler.FlushInterval) && canDeviceType != protocol.readOnlyType
    {
      if HasPassed(now, start, Scheduler.FlushInterval) && canDeviceType != protocol.readOnlyType
      then TxFrames(queue[..Min(|queue|, Scheduler.TxBatch)])
      else []
    }

    /** The heartbeat the heartbeat gate sends when it is checked at `now`
        with its Chrono started at `start`, the previous heartbeat having
        gone out at `lastBeat`: none when the gate does not fire, the role is
        READ_ONLY or the role has no heartbeat pmid. */
    function HeartbeatFrames(now: uint32, start: uint32, lastBeat: uint32): (frames: seq<Frame>)
      ensures |frames| <= 1
      ensures frames != [] ==> HasPassed(now, start, protocol.heartbeatInterval) && canDeviceType != protocol.readOnlyType
    {
      var pmid := protocol.heartbeatPmidFor(canDeviceType);
      if HasPassed(now, start, protocol.heartbeatInterval) && canDeviceType != protocol.readOnlyType && pmid != 0
      then [Frame(protocol.encodeMessageId(pmid, deviceUid16), protocol.encodeHeartbeat(now, lastBeat))]
      else []
    }

    lemma {:induction false} TxFramesSnoc(slots: seq<CanBuffer>, slot: CanBuffer)
      ensures TxFrames(slots + [slot]) == TxFrames(slots) + [TxFrame(slot)]
    {
      if slots != [] {
        assert (slots + [slot])[1..] == slots[1..] + [slot];
        TxFramesSnoc(slots[1..], slot);
      }
    }

    /** Sending the k-th queued slot extends the frames of the first k. */
    lemma TxFramesNext(q: seq<CanBuffer>, k: nat)
      requires k < |q|
      ensures TxFrames(q[..k + 1]) == TxFrames(q[..k]) + [TxFrame(q[k])]
    {
      assert q[..k + 1] == q[..k] + [q[k]];
      TxFramesSnoc(q[..k], q[k]);
    }

    /** The five device-info messages of sendDeviceInfo, in staging order. */
    function DeviceInfo(): (info: seq<Staging>)
      ensures |info| == 5
      ensures protocol.Wellformed() ==> Fits(info, protocol.TxLength())
    {
      [ Staging(deviceUid16, protocol.deviceSerial, protocol.encodeSerial(deviceUid64)),
        Staging(deviceUid16, protocol.deviceTypeIdPmid, protocol.encodeTypeId(deviceTypeId)),
        Staging(deviceUid16, protocol.deviceModel, protocol.encodeModel(deviceModel)),
        Staging(deviceUid16, protocol.deviceVendor, protocol.encodeVendor(deviceVendor)),
        Staging(deviceUid16, protocol.deviceShortName, protocol.encodeShortName(deviceShortName)) ]
    }

    /** sendStatus gets past its guards: not read-only and a status pmid exists. */
    predicate StatusEnabled()
    {
      canDeviceType != protocol.readOnlyType && protocol.statusPmidFor(canDeviceType) != 0
    }

    /** The status message sendStatus stages for the live status. */
    function StatusMessage(): (m: Staging)
      reads this`deviceStatus, this`deviceProgress, this`deviceProgressMax
      ensures m.uid == deviceUid16
      ensures protocol.Wellformed() ==> |m.payload| == protocol.payloadBytes
    {
      Staging(deviceUid16, protocol.statusPmidFor(canDeviceType),
              protocol.encodeStatus(deviceStatus, deviceProgress, deviceProgressMax))
    }

    /** The live status equals the shadow of the last one staged. */
    predicate StatusUnchanged()
      reads this`deviceStatus, this`deviceProgress, this`deviceProgressMax,
            this`lastDeviceStatus, this`lastDeviceProgress, this`lastDeviceProgressMax
    {
      deviceStatus == lastDeviceStatus && deviceProgress == lastDeviceProgress
      && deviceProgressMax == lastDeviceProgressMax
    }

    /** A state in which sendStatusIfChanged stages nothing. */
    predicate StatusSettled()
      reads this`deviceStatus, this`deviceProgress, this`deviceProgressMax,
            this`lastDeviceStatus, this`lastDeviceProgress, this`lastDeviceProgressMax
    {
      StatusUnchanged() || !StatusEnabled()
    }

    /** What requestRegistration stages: the type-id announcement under the
        device type id as pmid, then the device info, then the status. */
    function RegistrationRequest(): (reqs: seq<Staging>)
      reads this`deviceStatus, this`deviceProgress, this`deviceProgressMax
      ensures protocol.Wellformed() ==> Fits(reqs, protocol.TxLength())
    {
      [Staging(deviceUid16, Identity.Low16(deviceTypeId as nat), protocol.encodeTypeId(deviceTypeId))]
      + (if canDeviceType == protocol.readOnlyType then [] else DeviceInfo())
      + (if StatusEnabled() then [StatusMessage()] else [])
    }

    /** The TX lane the 10 ms gate leaves from `l`: the status staged unless it
        is settled, then the registration request when one is made. */
    ghost function MaintainedLane(l: Lane, settled: bool, requested: bool): (r: Lane)
      requires protocol.Wellformed() && LaneValid(l, protocol.payloadBytes)
      reads this`deviceStatus, this`deviceProgress, this`deviceProgressMax
      ensures LaneValid(r, protocol.payloadBytes)
    {
      var statusLane := if settled then l else Stage(l, StatusMessage(), protocol.TxLength(), protocol.payloadBytes);
      if requested then StageAll(statusLane, RegistrationRequest(), protocol.TxLength(), protocol.payloadBytes)
      else statusLane
    }

    /** The receive side of the device: the RX lane, presence and the two
        receive stamps. */
    ghost function Received(): Reception
      requires |lanes| == 2
      reads this`lanes, this`isOnlineOverCan, this`lastCanRxMillis, this`lastRemoteHeartbeatMillis
    {
      Reception(lanes[StorageIndexRx], isOnlineOverCan, lastCanRxMillis, lastRemoteHeartbeatMillis)
    }

    /** What rxCan does to the receive side with one frame at `now`: a
        heartbeat marks the device online and stamps both clocks, a frame
        addressed to another device is dropped, anything else is staged in
        the RX lane and stamps the receive clock. */
    ghost function ReceiveOne(r: Reception, msg: CanFrame, now: uint32): (r': Reception)
      requires LaneValid(r.rx, protocol.payloadBytes)
      ensures LaneValid(r'.rx, protocol.payloadBytes)
    {
      match Classify(protocol, msg, deviceUid16)
      case ToPresence => r.(online := true, lastCanRx := now, lastRemoteHeartbeat := now)
      case Rejected => r
      case ToRxBuffer =>
        var id := protocol.parseMessageId(msg.id);
        r.(rx := Stage(r.rx, Staging(id.uid, id.pmid, msg.data), Min(|msg.data|, protocol.payloadBytes), protocol.payloadBytes),
           lastCanRx := now)
    }

    /** The receive side after rxCan has handled `frames` in order at `now`. */
    ghost function ReceiveAll(r: Reception, frames: seq<CanFrame>, now: uint32): (r': Reception)
      requires LaneValid(r.rx, protocol.payloadBytes)
      ensures LaneValid(r'.rx, protocol.payloadBytes)
      decreases |frames|
    {
      if frames == [] then r
      else ReceiveOne(ReceiveAll(r, frames[..|frames| - 1], now), frames[|frames| - 1], now)
    }

    /** Handling one more frame of a batch extends the fold by one step. */
    lemma ReceiveAllNext(r: Reception, frames: seq<CanFrame>, k: nat, now: uint32)
      requires LaneValid(r.rx, protocol.payloadBytes) && k < |frames|
      ensures ReceiveAll(r, frames[..k + 1], now) == ReceiveOne(ReceiveAll(r, frames[..k], now), frames[k], now)
    {
      assert frames[..k + 1][..k] == frames[..k];
    }

    /** Some frame of `frames` is a remote heartbeat. */
    ghost predicate HeardHeartbeat(frames: seq<CanFrame>) {
      exists i :: 0 <= i < |frames| && Classify(protocol, frames[i], deviceUid16) == ToPresence
    }

    /** Some frame of `frames` is accepted (a heartbeat or a stored frame). */
    ghost predicate HeardAny(frames: seq<CanFrame>) {
      exists i :: 0 <= i < |frames| && Classify(protocol, frames[i], deviceUid16) != Rejected
    }

    /** After a batch, the device is online exactly when it was before or a
        heartbeat was among the frames; the heartbeat stamp is `now` after a
        heartbeat and kept otherwise, and the receive stamp is `now` after any
        accepted frame and kept otherwise. */
    lemma {:induction false} ReceiveAllStamps(r: Reception, frames: seq<CanFrame>, now: uint32)
      requires LaneValid(r.rx, protocol.payloadBytes)
      ensures ReceiveAll(r, frames, now).online <==> r.online || HeardHeartbeat(frames)
      ensures ReceiveAll(r, frames, now).lastRemoteHeartbeat ==
        if HeardHeartbeat(frames) then now else r.lastRemoteHeartbeat
      ensures ReceiveAll(r, frames, now).lastCanRx == if HeardAny(frames) then now else r.lastCanRx
      decreases |frames|
    {
      if frames != [] {
        var front := frames[..|frames| - 1];
        var last := frames[|frames| - 1];
        ReceiveAllStamps(r, front, now);
        assert forall i :: 0 <= i < |front| ==> front[i] == frames[i];
        assert HeardHeartbeat(frames) <==>
               HeardHeartbeat(front) || Classify(protocol, last, deviceUid16) == ToPresence;
        assert HeardAny(frames) <==>
               HeardAny(front) || Classify(protocol, last, deviceUid16) != Rejected;
      }
    }

    /** Gm7Can() with the member initialisers of the class, followed by
        begin(): empty buffers, offline, UNREGISTERED, status (0, 0, 1) with
        an equal shadow, the Chrono timers and heartbeat stamps started at
        `now`, and the identity begin() derives from its arguments: the type
        id widened, the device type extracted from it, the short uid as the
        low 16 bits of the long one and the three names bounded by strlcpy.
        The bus driver set-up and the frame template of begin() are not
        modelled. */
    constructor (protocol: Protocol, now: uint32,
                 providedDeviceUid64: uint64, providedDeviceTypeId: uint16,
                 providedDeviceModel: seq<char>, providedDeviceShortName: seq<char>, providedDeviceVendor: seq<char>)
      requires protocol.Wellformed()
      ensures Valid()
      ensures lanes == [EmptyLane(protocol.payloadBytes), EmptyLane(protocol.payloadBytes)]
      ensures RxQueue() == [] && TxQueue() == [] && routed == [] && sent == []
      ensures !isOnlineOverCan
      ensures currentRegistrationStatus == Unregistered && RegistrationCode(currentRegistrationStatus) == 0
      ensures deviceStatus == 0 && deviceProgress == 0 && deviceProgressMax == 1
      ensures StatusUnchanged() && StatusSettled()
      ensures chrono200FpsStart == now && chrono100FpsStart == now
      ensures chronoHeartbeatStart == now && chronoDeviceUpdateStart == now
      ensures lastHeartBeatMillis == now && lastRemoteHeartbeatMillis == now
      ensures lastCanRxMillis == 0 && lastCanTxMillis == 0
      ensures deviceUpdateIntervalMillis == protocol.deviceUpdateInterval
      ensures deviceTypeId as int == providedDeviceTypeId as int
      ensures canDeviceType == protocol.deviceTypeOf(deviceTypeId)
      ensures deviceUid16 == Identity.Low16(providedDeviceUid64 as nat) && deviceUid64 == providedDeviceUid64
      ensures deviceModel == Identity.Strlcpy(providedDeviceModel, protocol.payloadBytes)
      ensures deviceShortName == Identity.Strlcpy(providedDeviceShortName, protocol.payloadBytes)
      ensures deviceVendor == Identity.Strlcpy(providedDeviceVendor, protocol.payloadBytes)
      ensures |deviceModel| < protocol.payloadBytes && |deviceShortName| < protocol.payloadBytes
      ensures |deviceVendor| < protocol.payloadBytes
    {
      this.protocol := protocol;
      deviceTypeId := providedDeviceTypeId as int as uint32;
      canDeviceType := protocol.deviceTypeOf(providedDeviceTypeId as int as uint32);
      deviceUid16 := Identity.Low16(providedDeviceUid64 as nat);
      deviceUid64 := providedDeviceUid64;
      deviceModel := Identity.Strlcpy(providedDeviceModel, protocol.payloadBytes);
      deviceShortName := Identity.Strlcpy(providedDeviceShortName, protocol.payloadBytes);
      deviceVendor := Identity.Strlcpy(providedDeviceVendor, protocol.payloadBytes);
      chrono200FpsStart, chrono100FpsStart, chronoHeartbeatStart, chronoDeviceUpdateStart := now, now, now, now;
      deviceUpdateIntervalMillis := protocol.deviceUpdateInterval;
      currentRegistrationStatus := Unregistered;
      isOnlineOverCan := false;
      lastCanRxMillis, lastCanTxMillis := 0, 0;
      lastHeartBeatMillis, lastRemoteHeartbeatMillis := now, now;
      deviceStatus, deviceProgress, deviceProgressMax := 0, 0, 1;
      lastDeviceStatus, lastDeviceProgress, lastDeviceProgressMax := 0, 0, 1;
      lanes := [EmptyLane(protocol.payloadBytes), EmptyLane(protocol.payloadBytes)];
      routed, sent := [], [];
    }

    // ---------------------------------------------------------------- ring buffer

    /** writeToCanBufferStorage: stage a message in direction `storageIndex`,
        copying its first min(msgLength, payload size) bytes into the slot at
        the write cursor; refused on a bad direction or a full buffer. */
    method WriteToCanBufferStorage(storageIndex: uint8, uid: uint16, pmid: uint16, payload: seq<byte>, msgLength: uint8)
      returns (ok: bool)
      requires Valid()
      requires Min(msgLength as int, protocol.payloadBytes) <= |payload|
      modifies this`lanes
      ensures Valid()
      ensures ok <==> storageIndex < 2 && old(lanes[storageIndex]).countAvailable as int < StorageMaxSize
      ensures storageIndex >= 2 ==> lanes == old(lanes)
      ensures storageIndex < 2 ==>
        && lanes[storageIndex] == Stage(old(lanes[storageIndex]), Staging(uid, pmid, payload),
                                        Min(msgLength as int, protocol.payloadBytes), protocol.payloadBytes)
        && lanes[1 - storageIndex] == old(lanes[1 - storageIndex])
    {
      if storageIndex < StorageIndexRx || storageIndex > StorageIndexTx {
        return false;
      }
      var lane := lanes[storageIndex];
      if lane.countAvailable as int >= StorageMaxSize {
        return false;
      }
      var n := Min(msgLength as int, protocol.payloadBytes);
      var slot := lane.slots[lane.positionWrite];
      var bytes := slot.payload;
      for i := 0 to n
        invariant |bytes| == |slot.payload|
        invariant bytes[..i] == payload[..i]
        invariant bytes[i..] == slot.payload[i..]
      {
        bytes := bytes[i := payload[i]];
      }
      assert bytes == bytes[..n] + bytes[n..];
      var entry := CanBuffer(uid, pmid, bytes);
      assert entry == Overlaid(slot, Staging(uid, pmid, payload), n);
      var next := lane.positionWrite + 1;
      if next as int >= StorageMaxSize {
        next := 0;
      }
      lanes := lanes[storageIndex := Lane(lane.slots[lane.positionWrite := entry], lane.positionRead,
                                          next, lane.countAvailable + 1)];
      ok := true;
    }

    /** The two overloads that stage under the device's own uid. */
    method WriteOwnToCanBufferStorage(storageIndex: uint8, pmid: uint16, payload: seq<byte>, msgLength: uint8)
      returns (ok: bool)
      requires Valid()
      requires Min(msgLength as int, protocol.payloadBytes) <= |payload|
      modifies this`lanes
      ensures Valid()
      ensures ok <==> storageIndex < 2 && old(lanes[storageIndex]).countAvailable as int < StorageMaxSize
      ensures storageIndex >= 2 ==> lanes == old(lanes)
      ensures storageIndex < 2 ==>
        && lanes[storageIndex] == Stage(old(lanes[storageIndex]), Staging(deviceUid16, pmid, payload),
                                        Min(msgLength as int, protocol.payloadBytes), protocol.payloadBytes)
        && lanes[1 - storageIndex] == old(lanes[1 - storageIndex])
    {
      ok := WriteToCanBufferStorage(storageIndex, deviceUid16, pmid, payload, msgLength);
    }

    /** readFromCanBufferStorage: take the oldest message of a direction;
        None (and nothing changes) on a bad direction or an empty buffer. */
    method ReadFromCanBufferStorage(storageIndex: uint8) returns (r: Option<CanBuffer>)
      requires Valid()
      modifies this`lanes
      ensures Valid()
      ensures storageIndex >= 2 ==> r.None?
      ensures r.None? ==> lanes == old(lanes)
      ensures storageIndex < 2 ==> (r, Queue(storageIndex)) == Pop(old(Queue(storageIndex)))
      ensures r.Some? ==>
        lanes[storageIndex] == Taken(old(lanes[storageIndex])) && lanes[1 - storageIndex] == old(lanes[1 - storageIndex])
    {
      if storageIndex < StorageIndexRx || storageIndex > StorageIndexTx {
        return None;
      }
      var lane := lanes[storageIndex];
      if lane.countAvailable == 0 {
        return None;
      }
      var index := lane.positionRead;
      var next := index + 1;
      if next as int == StorageMaxSize {
        next := 0;
      }
      lanes := lanes[storageIndex := Lane(lane.slots, next, lane.positionWrite, lane.countAvailable - 1)];
      ReadTakesHead(lane, protocol.payloadBytes);
      r := Some(lane.slots[index]);
    }

    // ---------------------------------------------------------------- router and presence

    method GoOnlineOverCan()
      modifies this`isOnlineOverCan
      ensures isOnlineOverCan
    {
      isOnlineOverCan := true;
    }

    method GoOfflineOverCan()
      modifies this`isOnlineOverCan
      ensures !isOnlineOverCan
    {
      isOnlineOverCan := false;
    }

    /** receiveRemoteHeartbeat: online, and both reception stamps refreshed. */
    method ReceiveRemoteHeartbeat(now: uint32)
      modifies this`isOnlineOverCan, this`lastRemoteHeartbeatMillis, this`lastCanRxMillis
      ensures isOnlineOverCan
      ensures lastRemoteHeartbeatMillis == now && lastCanRxMillis == now
    {
      if !isOnlineOverCan {
        GoOnlineOverCan();
      }
      lastRemoteHeartbeatMillis := now;
      lastCanRxMillis := lastRemoteHeartbeatMillis;
    }

    /** checkOnlineStatus: a no-op while offline; while online, offline once
        more than the timeout has elapsed since the last remote heartbeat
        (wrap-safe test, see Timing.TimedOutAsWritten for the test as written). */
    method CheckOnlineStatus(now: uint32)
      modifies this`isOnlineOverCan
      ensures isOnlineOverCan == (old(isOnlineOverCan) && !TimedOut(lastRemoteHeartbeatMillis, protocol.heartbeatTimeout, now))
    {
      if !isOnlineOverCan {
        return;
      }
      if TimedOut(lastRemoteHeartbeatMillis, protocol.heartbeatTimeout, now) {
        GoOfflineOverCan();
      }
    }

    /** storeRxCanToStorageBuffer: drop a frame addressed to another device;
        otherwise refresh the reception stamp and, unless it is a heartbeat,
        stage it in RX under the parsed uid and pmid. */
    method StoreRxCanToStorageBuffer(msg: CanFrame, now: uint32)
      requires Valid()
      modifies this`lanes, this`lastCanRxMillis
      ensures Valid()
      ensures lanes[StorageIndexTx] == old(lanes[StorageIndexTx])
      ensures var id := protocol.parseMessageId(msg.id);
        if protocol.InAddressedRange(id.pmid) && protocol.targetUidOf(msg.data) != deviceUid16 then
          lastCanRxMillis == old(lastCanRxMillis) && lanes == old(lanes)
        else if protocol.InHeartbeatRange(id.pmid) then
          lastCanRxMillis == now && lanes == old(lanes)
        else
          && lastCanRxMillis == now
          && lanes[StorageIndexRx] == Stage(old(lanes[StorageIndexRx]), Staging(id.uid, id.pmid, msg.data),
                                                         Min(|msg.data|, protocol.payloadBytes), protocol.payloadBytes)
    {
      var messageId := protocol.parseMessageId(msg.id);
      if protocol.InAddressedRange(messageId.pmid) {
        var targetUid := protocol.targetUidOf(msg.data);
        if targetUid != deviceUid16 {
          return;
        }
      }
      lastCanRxMillis := now;
      if protocol.InHeartbeatRange(messageId.pmid) {
        return;
      }
      var _ := WriteToCanBufferStorage(StorageIndexRx, messageId.uid, messageId.pmid, msg.data, |msg.data| as uint8);
    }

    /** rxCan: heartbeats go to presence, everything else to the store. */
    method RxCan(msg: CanFrame, now: uint32)
      requires Valid()
      modifies this`lanes, this`routed,
               this`isOnlineOverCan, this`lastCanRxMillis, this`lastRemoteHeartbeatMillis
      ensures Valid()
      ensures routed == old(routed) + [msg]
      ensures lanes[StorageIndexTx] == old(lanes[StorageIndexTx])
      ensures Classify(protocol, msg, deviceUid16) == ToPresence ==>
        && isOnlineOverCan && lastRemoteHeartbeatMillis == now && lastCanRxMillis == now
        && lanes[StorageIndexRx] == old(lanes[StorageIndexRx])
      ensures Classify(protocol, msg, deviceUid16) == Rejected ==>
        && isOnlineOverCan == old(isOnlineOverCan) && lastRemoteHeartbeatMillis == old(lastRemoteHeartbeatMillis)
        && lastCanRxMillis == old(lastCanRxMillis) && lanes[StorageIndexRx] == old(lanes[StorageIndexRx])
      ensures Classify(protocol, msg, deviceUid16) == ToRxBuffer ==>
        var id := protocol.parseMessageId(msg.id);
        && isOnlineOverCan == old(isOnlineOverCan) && lastRemoteHeartbeatMillis == old(lastRemoteHeartbeatMillis)
        && lastCanRxMillis == now
        && lanes[StorageIndexRx] == Stage(old(lanes[StorageIndexRx]), Staging(id.uid, id.pmid, msg.data),
                                                       Min(|msg.data|, protocol.payloadBytes), protocol.payloadBytes)
      ensures NoHeartbeats(protocol, old(RxQueue())) ==> NoHeartbeats(protocol, RxQueue())
      ensures Received() == ReceiveOne(old(Received()), msg, now)
    {
      routed := routed + [msg];
      var messageId := protocol.parseMessageId(msg.id);
      if protocol.InHeartbeatRange(messageId.pmid) {
        ReceiveRemoteHeartbeat(now);
      } else {
        ghost var rx := lanes[StorageIndexRx];
        StoreRxCanToStorageBuffer(msg, now);
        StagePushes(rx, Staging(messageId.uid, messageId.pmid, msg.data),
                    Min(|msg.data|, protocol.payloadBytes), protocol.payloadBytes);
      }
    }

    // ---------------------------------------------------------------- transmit paths

    /** txCan: write one frame to the bus, unless read-only. */
    method TxCan(frame: Frame, now: uint32)
      modifies this`sent, this`lastCanTxMillis
      ensures canDeviceType == protocol.readOnlyType ==> sent == old(sent) && lastCanTxMillis == old(lastCanTxMillis)
      ensures canDeviceType != protocol.readOnlyType ==> sent == old(sent) + [frame] && lastCanTxMillis == now
    {
      if canDeviceType == protocol.readOnlyType {
        return;
      }
      sent := sent + [frame];
      lastCanTxMillis := now;
    }

    /** sendHeartbeat: the role's heartbeat frame, carrying the current time
        and the time of the previous heartbeat, straight to the bus. */
    method SendHeartbeat(now: uint32)
      modifies this`sent, this`lastCanTxMillis, this`lastHeartBeatMillis
      ensures var pmid := protocol.heartbeatPmidFor(canDeviceType);
        if canDeviceType == protocol.readOnlyType || pmid == 0 then
          sent == old(sent) && lastCanTxMillis == old(lastCanTxMillis) && lastHeartBeatMillis == old(lastHeartBeatMillis)
        else
          && sent == old(sent) + [Frame(protocol.encodeMessageId(pmid, deviceUid16),
                                        protocol.encodeHeartbeat(now, old(lastHeartBeatMillis)))]
          && lastCanTxMillis == now && lastHeartBeatMillis == now
    {
      if canDeviceType == protocol.readOnlyType {
        return;
      }
      var heartbeatDeviceType := protocol.heartbeatPmidFor(canDeviceType);
      if heartbeatDeviceType == 0 {
        return;
      }
      var id := protocol.encodeMessageId(heartbeatDeviceType, deviceUid16);
      var data := protocol.encodeHeartbeat(now, lastHeartBeatMillis);
      TxCan(Frame(id, data), now);
      lastHeartBeatMillis := now;
    }

    /** One pass of sendTxCanFromStorageBuffer's loop: read the oldest TX
        slot, build its frame and send it. */
    method SendOldestTx(now: uint32)
      requires Valid() && TxQueue() != [] && canDeviceType != protocol.readOnlyType
      modifies this`lanes, this`sent, this`lastCanTxMillis
      ensures Valid()
      ensures lanes[StorageIndexRx] == old(lanes[StorageIndexRx])
      ensures TxQueue() == old(TxQueue())[1..]
      ensures lanes[StorageIndexTx] == Taken(old(lanes[StorageIndexTx]))
      ensures sent == old(sent) + [TxFrame(old(TxQueue())[0])]
      ensures lastCanTxMillis == now
    {
      QueuedSized(lanes[StorageIndexTx], protocol.payloadBytes);
      var next := ReadFromCanBufferStorage(StorageIndexTx);
      var frame := BuildTxFrame(next.value);
      TxCan(frame, now);
    }

    /** One pass of the flush loop: after `k` reads from lane `l0`, send the
        slot `k` of its queue. */
    method SendNextTx(now: uint32, ghost l0: Lane, ghost k: nat)
      requires Valid() && canDeviceType != protocol.readOnlyType
      requires LaneValid(l0, protocol.payloadBytes) && k < l0.countAvailable as int
      requires lanes[StorageIndexTx] == Drained(l0, k, protocol.payloadBytes)
      modifies this`lanes, this`sent, this`lastCanTxMillis
      ensures Valid()
      ensures lanes[StorageIndexRx] == old(lanes[StorageIndexRx])
      ensures lanes[StorageIndexTx] == Drained(l0, k + 1, protocol.payloadBytes)
      ensures sent == old(sent) + [TxFrame(Contents(l0)[k])]
      ensures lastCanTxMillis == now
    {
      DrainedDrops(l0, k, protocol.payloadBytes);
      DrainedNext(l0, k, protocol.payloadBytes);
      PopAt(Contents(l0), k);
      SendOldestTx(now);
    }

    /** sendTxCanFromStorageBuffer: send up to ten staged TX messages, oldest
        first, stopping when the TX buffer is empty; nothing when read-only. */
    method SendTxCanFromStorageBuffer(now: uint32)
      requires Valid()
      modifies this`lanes, this`sent, this`lastCanTxMillis
      ensures Valid()
      ensures lanes[StorageIndexRx] == old(lanes[StorageIndexRx])
      ensures canDeviceType == protocol.readOnlyType ==>
        lanes[StorageIndexTx] == old(lanes[StorageIndexTx]) && sent == old(sent) && lastCanTxMillis == old(lastCanTxMillis)
      ensures canDeviceType != protocol.readOnlyType ==>
        var k := Min(|old(TxQueue())|, Scheduler.TxBatch);
        && TxQueue() == old(TxQueue())[k..]
        && lanes[StorageIndexTx] == Drained(old(lanes[StorageIndexTx]), k, protocol.payloadBytes)
        && sent == old(sent) + TxFrames(old(TxQueue())[..k])
        && lastCanTxMillis == if k > 0 then now else old(lastCanTxMillis)
    {
      if canDeviceType == protocol.readOnlyType {
        return;
      }
      ghost var l0 := lanes[StorageIndexTx];
      ghost var q0 := Contents(l0);
      ghost var s0 := sent;
      ghost var k := 0;
      var batchLimit: uint8 := 10;
      while lanes[StorageIndexTx].countAvailable > 0 && batchLimit > 0
        invariant Valid()
        invariant k == 10 - batchLimit as int && k <= |q0|
        invariant lanes[StorageIndexTx] == Drained(l0, k, protocol.payloadBytes)
        invariant sent == s0 + TxFrames(q0[..k])
        invariant lanes[StorageIndexRx] == old(lanes[StorageIndexRx])
        invariant lastCanTxMillis == if k > 0 then now else old(lastCanTxMillis)
        decreases batchLimit
      {
        SendNextTx(now, l0, k);
        TxFramesNext(q0, k);
        batchLimit := batchLimit - 1;
        k := k + 1;
      }
      DrainedDrops(l0, k, protocol.payloadBytes);
    }

    /** The frame sendTxCanFromStorageBuffer fills for a staged slot: the
        identifier encoded from its pmid and uid, and its payload copied byte
        by byte up to TxLength(). */
    method BuildTxFrame(slot: CanBuffer) returns (frame: Frame)
      requires protocol.TxLength() <= |slot.payload|
      ensures frame == TxFrame(slot)
      ensures |frame.data| == protocol.TxLength()
    {
      var id := protocol.encodeMessageId(slot.pmid, slot.uid);
      var data: seq<byte> := [];
      for i := 0 to protocol.TxLength()
        invariant data == slot.payload[..i]
      {
        data := data + [slot.payload[i]];
      }
      frame := Frame(id, data);
    }

    /** sendDeviceInfo: stage serial number, type id, model, vendor and short
        name, then re-randomise the device-update interval. */
    method SendDeviceInfo(nextDeviceUpdateInterval: uint32)
      requires Valid()
      modifies this`lanes, this`deviceUpdateIntervalMillis
      ensures Valid()
      ensures lanes[StorageIndexRx] == old(lanes[StorageIndexRx])
      ensures canDeviceType == protocol.readOnlyType ==>
        lanes[StorageIndexTx] == old(lanes[StorageIndexTx]) && deviceUpdateIntervalMillis == old(deviceUpdateIntervalMillis)
      ensures canDeviceType != protocol.readOnlyType ==>
        && lanes[StorageIndexTx] == StageAll(old(lanes[StorageIndexTx]), DeviceInfo(),
                                                          protocol.TxLength(), protocol.payloadBytes)
        && deviceUpdateIntervalMillis == nextDeviceUpdateInterval
    {
      if canDeviceType == protocol.readOnlyType {
        return;
      }
      var n := protocol.TxLength() as uint8;
      ghost var tx := lanes[StorageIndexTx];
      var ok := WriteOwnToCanBufferStorage(StorageIndexTx, protocol.deviceSerial, protocol.encodeSerial(deviceUid64), n);
      ok := WriteOwnToCanBufferStorage(StorageIndexTx, protocol.deviceTypeIdPmid, protocol.encodeTypeId(deviceTypeId), n);
      ok := WriteOwnToCanBufferStorage(StorageIndexTx, protocol.deviceModel, protocol.encodeModel(deviceModel), n);
      ok := WriteOwnToCanBufferStorage(StorageIndexTx, protocol.deviceVendor, protocol.encodeVendor(deviceVendor), n);
      ok := WriteOwnToCanBufferStorage(StorageIndexTx, protocol.deviceShortName, protocol.encodeShortName(deviceShortName), n);
      StageAllFive(tx, Staging(deviceUid16, protocol.deviceSerial, protocol.encodeSerial(deviceUid64)),
                   Staging(deviceUid16, protocol.deviceTypeIdPmid, protocol.encodeTypeId(deviceTypeId)),
                   Staging(deviceUid16, protocol.deviceModel, protocol.encodeModel(deviceModel)),
                   Staging(deviceUid16, protocol.deviceVendor, protocol.encodeVendor(deviceVendor)),
                   Staging(deviceUid16, protocol.deviceShortName, protocol.encodeShortName(deviceShortName)),
                   n as nat, protocol.payloadBytes);
      deviceUpdateIntervalMillis := nextDeviceUpdateInterval;
    }

    /** sendTimerData: stage a (current, set) timer pair under `pmid`. */
    method SendTimerData(pmid: uint16, timerDataMillisCurrent: uint32, timerDataMillisSet: uint32)
      requires Valid()
      modifies this`lanes
      ensures Valid()
      ensures lanes[StorageIndexRx] == old(lanes[StorageIndexRx])
      ensures canDeviceType == protocol.readOnlyType ==>
        lanes[StorageIndexTx] == old(lanes[StorageIndexTx])
      ensures canDeviceType != protocol.readOnlyType ==>
        lanes[StorageIndexTx] == Stage(old(lanes[StorageIndexTx]),
          Staging(deviceUid16, pmid, protocol.encodeTimers(timerDataMillisCurrent, timerDataMillisSet)),
          protocol.TxLength(), protocol.payloadBytes)
    {
      if canDeviceType == protocol.readOnlyType {
        return;
      }
      var payloadBuffer := protocol.encodeTimers(timerDataMillisCurrent, timerDataMillisSet);
      var _ := WriteOwnToCanBufferStorage(StorageIndexTx, pmid, payloadBuffer, protocol.TxLength() as uint8);
    }

    /** The three timer wrappers: the role's pmid for the timer kind, nothing
        when the role is read-only or has no such timer (pmid 0). */
    method SendMainTimer(timerDataMillisCurrent: uint32, timerDataMillisSet: uint32)
      requires Valid()
      modifies this`lanes
      ensures Valid()
      ensures lanes[StorageIndexRx] == old(lanes[StorageIndexRx])
      ensures var pmid := protocol.mainTimerPmidFor(canDeviceType);
        if canDeviceType == protocol.readOnlyType || pmid == 0 then
          lanes[StorageIndexTx] == old(lanes[StorageIndexTx])
        else
          lanes[StorageIndexTx] == Stage(old(lanes[StorageIndexTx]),
            Staging(deviceUid16, pmid, protocol.encodeTimers(timerDataMillisCurrent, timerDataMillisSet)),
            protocol.TxLength(), protocol.payloadBytes)
    {
      if canDeviceType == protocol.readOnlyType {
        return;
      }
      var pmid := protocol.mainTimerPmidFor(canDeviceType);
      if pmid == 0 {
        return;
      }
      SendTimerData(pmid, timerDataMillisCurrent, timerDataMillisSet);
    }

    method SendValidationTimer(timerDataMillisCurrent: uint32, timerDataMillisSet: uint32)
      requires Valid()
      modifies this`lanes
      ensures Valid()
      ensures lanes[StorageIndexRx] == old(lanes[StorageIndexRx])
      ensures var pmid := protocol.validationTimerPmidFor(canDeviceType);
        if canDeviceType == protocol.readOnlyType || pmid == 0 then
          lanes[StorageIndexTx] == old(lanes[StorageIndexTx])
        else
          lanes[StorageIndexTx] == Stage(old(lanes[StorageIndexTx]),
            Staging(deviceUid16, pmid, protocol.encodeTimers(timerDataMillisCurrent, timerDataMillisSet)),
            protocol.TxLength(), protocol.payloadBytes)
    {
      if canDeviceType == protocol.readOnlyType {
        return;
      }
      var pmid := protocol.validationTimerPmidFor(canDeviceType);
      if pmid == 0 {
        return;
      }
      SendTimerData(pmid, timerDataMillisCurrent, timerDataMillisSet);
    }

    method SendInternalTimer(timerDataMillisCurrent: uint32, timerDataMillisSet: uint32)
      requires Valid()
      modifies this`lanes
      ensures Valid()
      ensures lanes[StorageIndexRx] == old(lanes[StorageIndexRx])
      ensures var pmid := protocol.internalTimerPmidFor(canDeviceType);
        if canDeviceType == protocol.readOnlyType || pmid == 0 then
          lanes[StorageIndexTx] == old(lanes[StorageIndexTx])
        else
          lanes[StorageIndexTx] == Stage(old(lanes[StorageIndexTx]),
            Staging(deviceUid16, pmid, protocol.encodeTimers(timerDataMillisCurrent, timerDataMillisSet)),
            protocol.TxLength(), protocol.payloadBytes)
    {
      if canDeviceType == protocol.readOnlyType {
        return;
      }
      var pmid := protocol.internalTimerPmidFor(canDeviceType);
      if pmid == 0 {
        return;
      }
      SendTimerData(pmid, timerDataMillisCurrent, timerDataMillisSet);
    }

    // ---------------------------------------------------------------- status

    method UpdateDeviceGameStatusAndProgress(status: uint32, progress: uint16, progressMax: uint16)
      modifies this`deviceStatus, this`deviceProgress, this`deviceProgressMax
      ensures deviceStatus == status && deviceProgress == progress && deviceProgressMax == progressMax
    {
      deviceStatus := status;
      deviceProgress := progress;
      deviceProgressMax := progressMax;
    }

    /** sendStatus: stage the live status and copy it into the shadow. The
        shadow is updated even when the TX buffer was full and the message
        was dropped. */
    method SendStatus()
      requires Valid()
      modifies this`lanes,
               this`lastDeviceStatus, this`lastDeviceProgress, this`lastDeviceProgressMax
      ensures Valid()
      ensures lanes[StorageIndexRx] == old(lanes[StorageIndexRx])
      ensures !StatusEnabled() ==>
        && lanes[StorageIndexTx] == old(lanes[StorageIndexTx])
        && lastDeviceStatus == old(lastDeviceStatus) && lastDeviceProgress == old(lastDeviceProgress)
        && lastDeviceProgressMax == old(lastDeviceProgressMax)
      ensures StatusEnabled() ==>
        && lanes[StorageIndexTx] == Stage(old(lanes[StorageIndexTx]), StatusMessage(),
                                                       protocol.TxLength(), protocol.payloadBytes)
        && StatusUnchanged()
    {
      if canDeviceType == protocol.readOnlyType {
        return;
      }
      var statusDeviceType := protocol.statusPmidFor(canDeviceType);
      if statusDeviceType == 0 {
        return;
      }
      var payloadBuffer := protocol.encodeStatus(deviceStatus, deviceProgress, deviceProgressMax);
      var _ := WriteOwnToCanBufferStorage(StorageIndexTx, statusDeviceType, payloadBuffer, protocol.TxLength() as uint8);
      lastDeviceStatus := deviceStatus;
      lastDeviceProgress := deviceProgress;
      lastDeviceProgressMax := deviceProgressMax;
    }

    /** sendStatusIfChanged: stage the status only when it differs from the
        shadow. Afterwards the status is settled, and from a settled state
        the call stages nothing: two calls in a row stage at most once. */
    method SendStatusIfChanged()
      requires Valid()
      modifies this`lanes,
               this`lastDeviceStatus, this`lastDeviceProgress, this`lastDeviceProgressMax
      ensures Valid()
      ensures lanes[StorageIndexRx] == old(lanes[StorageIndexRx])
      ensures old(StatusSettled()) ==>
        && lanes[StorageIndexTx] == old(lanes[StorageIndexTx])
        && lastDeviceStatus == old(lastDeviceStatus) && lastDeviceProgress == old(lastDeviceProgress)
        && lastDeviceProgressMax == old(lastDeviceProgressMax)
      ensures !old(StatusSettled()) ==>
        lanes[StorageIndexTx] == Stage(old(lanes[StorageIndexTx]), StatusMessage(),
                                                    protocol.TxLength(), protocol.payloadBytes)
      ensures StatusSettled()
    {
      if deviceStatus == lastDeviceStatus && deviceProgress == lastDeviceProgress
         && deviceProgressMax == lastDeviceProgressMax {
        return;
      }
      SendStatus();
    }

    // ---------------------------------------------------------------- registration

    /** requestRegistration: for a device type id strictly inside the device
        type section, stage the type-id announcement, restart the
        device-update timer, then send device info and status. */
    method RequestRegistration(now: uint32, nextDeviceUpdateInterval: uint32)
      requires Valid()
      modifies this`lanes,
               this`chronoDeviceUpdateStart, this`deviceUpdateIntervalMillis,
               this`lastDeviceStatus, this`lastDeviceProgress, this`lastDeviceProgressMax
      ensures Valid()
      ensures lanes[StorageIndexRx] == old(lanes[StorageIndexRx])
      ensures !protocol.InDeviceTypeSection(deviceTypeId) ==>
        && lanes[StorageIndexTx] == old(lanes[StorageIndexTx])
        && chronoDeviceUpdateStart == old(chronoDeviceUpdateStart)
        && deviceUpdateIntervalMillis == old(deviceUpdateIntervalMillis)
        && lastDeviceStatus == old(lastDeviceStatus) && lastDeviceProgress == old(lastDeviceProgress)
        && lastDeviceProgressMax == old(lastDeviceProgressMax)
      ensures protocol.InDeviceTypeSection(deviceTypeId) ==>
        && lanes[StorageIndexTx] == StageAll(old(lanes[StorageIndexTx]), RegistrationRequest(),
                                                          protocol.TxLength(), protocol.payloadBytes)
        && chronoDeviceUpdateStart == now
        && deviceUpdateIntervalMillis ==
             (if canDeviceType == protocol.readOnlyType then old(deviceUpdateIntervalMillis) else nextDeviceUpdateInterval)
        && (StatusEnabled() ==> StatusUnchanged())
        && (!StatusEnabled() ==>
              lastDeviceStatus == old(lastDeviceStatus) && lastDeviceProgress == old(lastDeviceProgress)
              && lastDeviceProgressMax == old(lastDeviceProgressMax))
    {
      if protocol.InDeviceTypeSection(deviceTypeId) {
        var n := protocol.TxLength() as uint8;
        ghost var l0 := lanes[StorageIndexTx];
        var payloadBuffer := protocol.encodeTypeId(deviceTypeId);
        var _ := WriteOwnToCanBufferStorage(StorageIndexTx, Identity.Low16(deviceTypeId as nat), payloadBuffer, n);
        ghost var l1 := lanes[StorageIndexTx];
        chronoDeviceUpdateStart := now;
        SendDeviceInfo(nextDeviceUpdateInterval);
        ghost var l2 := lanes[StorageIndexTx];
        ghost var info := if canDeviceType == protocol.readOnlyType then [] else DeviceInfo();
        SendStatus();
        ghost var status := if StatusEnabled() then [StatusMessage()] else [];
        if StatusEnabled() {
          StageAllOne(l2, StatusMessage(), n as nat, protocol.payloadBytes);
        }
        StagedInThree(l0, l1, l2, lanes[StorageIndexTx],
                      Staging(deviceUid16, Identity.Low16(deviceTypeId as nat), payloadBuffer), info, status,
                      n as nat, protocol.payloadBytes);
      }
    }

    /** updateDeviceRegistration: one step of the registration machine; the
        step from UNREGISTERED to REGISTRATION_PENDING requests registration,
        and is taken even when that request stages nothing. */
    method UpdateDeviceRegistration(now: uint32, nextDeviceUpdateInterval: uint32)
      requires Valid()
      modifies this`lanes, this`currentRegistrationStatus,
               this`chronoDeviceUpdateStart, this`deviceUpdateIntervalMillis,
               this`lastDeviceStatus, this`lastDeviceProgress, this`lastDeviceProgressMax
      ensures Valid()
      ensures lanes[StorageIndexRx] == old(lanes[StorageIndexRx])
      ensures currentRegistrationStatus ==
        Registration.Step(protocol, canDeviceType, isOnlineOverCan, old(currentRegistrationStatus))
      ensures !(Registration.Requests(protocol, canDeviceType, isOnlineOverCan, old(currentRegistrationStatus))
                && protocol.InDeviceTypeSection(deviceTypeId)) ==>
        && lanes[StorageIndexTx] == old(lanes[StorageIndexTx])
        && chronoDeviceUpdateStart == old(chronoDeviceUpdateStart)
        && deviceUpdateIntervalMillis == old(deviceUpdateIntervalMillis)
        && lastDeviceStatus == old(lastDeviceStatus) && lastDeviceProgress == old(lastDeviceProgress)
        && lastDeviceProgressMax == old(lastDeviceProgressMax)
      ensures Registration.Requests(protocol, canDeviceType, isOnlineOverCan, old(currentRegistrationStatus))
              && protocol.InDeviceTypeSection(deviceTypeId) ==>
        && lanes[StorageIndexTx] == StageAll(old(lanes[StorageIndexTx]), RegistrationRequest(),
                                                          protocol.TxLength(), protocol.payloadBytes)
        && chronoDeviceUpdateStart == now
        && deviceUpdateIntervalMillis == nextDeviceUpdateInterval
        && (StatusEnabled() ==> StatusUnchanged())
        && (!StatusEnabled() ==>
              lastDeviceStatus == old(lastDeviceStatus) && lastDeviceProgress == old(lastDeviceProgress)
              && lastDeviceProgressMax == old(lastDeviceProgressMax))
    {
      if canDeviceType == protocol.readOnlyType {
        return;
      }
      if canDeviceType == protocol.controllerType {
        currentRegistrationStatus := Registrar;
        return;
      }
      if !isOnlineOverCan && (currentRegistrationStatus == RegistrationPending || currentRegistrationStatus == Registered) {
        currentRegistrationStatus := Unregistered;
        return;
      }
      if currentRegistrationStatus == Unregistered && isOnlineOverCan {
        RequestRegistration(now, nextDeviceUpdateInterval);
        currentRegistrationStatus := RegistrationPending;
      }
    }

    // ---------------------------------------------------------------- scheduler

    /** The receive drain of loop(): hand at most RxBatch waiting frames to
        rxCan, oldest first (the counter is tested before the driver is
        read, see Scheduler.DrainAsWritten for the order as written).
        `waiting` is the driver's receive FIFO; the frames left are returned. */
    method ReceiveBatch(now: uint32, waiting: seq<CanFrame>) returns (stillWaiting: seq<CanFrame>)
      requires Valid()
      modifies this`lanes, this`routed, this`isOnlineOverCan, this`lastCanRxMillis, this`lastRemoteHeartbeatMillis
      ensures Valid()
      ensures routed == old(routed) + Scheduler.Drain(waiting, Scheduler.RxBatch).0
      ensures stillWaiting == Scheduler.Drain(waiting, Scheduler.RxBatch).1
      ensures |routed| - |old(routed)| == Min(|waiting|, Scheduler.RxBatch)
      ensures lanes[StorageIndexTx] == old(lanes[StorageIndexTx]) && TxQueue() == old(TxQueue())
      ensures Received() == ReceiveAll(old(Received()), Scheduler.Drain(waiting, Scheduler.RxBatch).0, now)
    {
      stillWaiting := waiting;
      var batchRxMaxCount: uint8 := 8;
      ghost var k := 0;
      ghost var r0 := Received();
      while batchRxMaxCount > 0 && |stillWaiting| > 0
        invariant Valid()
        invariant k + batchRxMaxCount as int == 8 && k <= |waiting|
        invariant stillWaiting == waiting[k..]
        invariant routed == old(routed) + waiting[..k]
        invariant lanes[StorageIndexTx] == old(lanes[StorageIndexTx])
        invariant LaneValid(r0.rx, protocol.payloadBytes) && Received() == ReceiveAll(r0, waiting[..k], now)
      {
        Scheduler.TakeNext(waiting, k);
        ReceiveAllNext(r0, waiting, k, now);
        var msg := stillWaiting[0];
        stillWaiting := stillWaiting[1..];
        RxCan(msg, now);
        batchRxMaxCount := batchRxMaxCount - 1;
        k := k + 1;
      }
      Scheduler.DrainTakesBatch(waiting, Scheduler.RxBatch);
    }

    /** The 200 fps gate of loop(): every FlushInterval ms, restart the gate
        and flush the TX buffer to the bus. */
    method FlushGate(now: uint32)
      requires Valid()
      modifies this`chrono200FpsStart, this`lanes, this`sent, this`lastCanTxMillis
      ensures Valid()
      ensures chrono200FpsStart ==
        if HasPassed(now, old(chrono200FpsStart), Scheduler.FlushInterval) then now else old(chrono200FpsStart)
      ensures lanes[StorageIndexRx] == old(lanes[StorageIndexRx])
      ensures lanes[StorageIndexTx] ==
        if HasPassed(now, old(chrono200FpsStart), Scheduler.FlushInterval) && canDeviceType != protocol.readOnlyType
        then Drained(old(lanes[StorageIndexTx]), Min(|old(TxQueue())|, Scheduler.TxBatch), protocol.payloadBytes)
        else old(lanes[StorageIndexTx])
      ensures !HasPassed(now, old(chrono200FpsStart), Scheduler.FlushInterval) || canDeviceType == protocol.readOnlyType ==>
        sent == old(sent) && lastCanTxMillis == old(lastCanTxMillis)
      ensures HasPassed(now, old(chrono200FpsStart), Scheduler.FlushInterval) && canDeviceType != protocol.readOnlyType ==>
        var k := Min(|old(TxQueue())|, Scheduler.TxBatch);
        && TxQueue() == old(TxQueue())[k..]
        && sent == old(sent) + TxFrames(old(TxQueue())[..k])
        && lastCanTxMillis == if k > 0 then now else old(lastCanTxMillis)
    {
      if HasPassed(now, chrono200FpsStart, Scheduler.FlushInterval) {
        chrono200FpsStart := now;
        SendTxCanFromStorageBuffer(now);
      }
    }

    /** The first half of the 100 fps gate's work: stage the status if it
        changed, then check whether the remote heartbeat timed out. */
    method ServiceStatus(now: uint32)
      requires Valid()
      modifies this`lanes, this`lastDeviceStatus, this`lastDeviceProgress, this`lastDeviceProgressMax,
               this`isOnlineOverCan
      ensures Valid()
      ensures lanes[StorageIndexRx] == old(lanes[StorageIndexRx])
      ensures isOnlineOverCan == (old(isOnlineOverCan) && !TimedOut(lastRemoteHeartbeatMillis, protocol.heartbeatTimeout, now))
      ensures old(StatusSettled()) ==>
        && lanes[StorageIndexTx] == old(lanes[StorageIndexTx])
        && lastDeviceStatus == old(lastDeviceStatus) && lastDeviceProgress == old(lastDeviceProgress)
        && lastDeviceProgressMax == old(lastDeviceProgressMax)
      ensures !old(StatusSettled()) ==>
        lanes[StorageIndexTx] == Stage(old(lanes[StorageIndexTx]), StatusMessage(),
                                       protocol.TxLength(), protocol.payloadBytes)
      ensures StatusSettled()
    {
      SendStatusIfChanged();
      CheckOnlineStatus(now);
    }

    /** The work of the 100 fps gate when it fires: the status is staged
        if it changed, presence is checked, and registration takes one
        step; TX receives the status (unless settled) and then the
        registration request (when one is made). */
    method Maintain(now: uint32, registrationInterval: uint32)
      requires Valid()
      modifies this`lanes,
               this`lastDeviceStatus, this`lastDeviceProgress, this`lastDeviceProgressMax,
               this`isOnlineOverCan, this`currentRegistrationStatus,
               this`chronoDeviceUpdateStart, this`deviceUpdateIntervalMillis
      ensures Valid()
      ensures lanes[StorageIndexRx] == old(lanes[StorageIndexRx])
      ensures isOnlineOverCan == (old(isOnlineOverCan) && !TimedOut(lastRemoteHeartbeatMillis, protocol.heartbeatTimeout, now))
      ensures currentRegistrationStatus ==
        Registration.Step(protocol, canDeviceType, isOnlineOverCan, old(currentRegistrationStatus))
      ensures StatusSettled()
      ensures var requested := Registration.Requests(protocol, canDeviceType, isOnlineOverCan, old(currentRegistrationStatus))
                               && protocol.InDeviceTypeSection(deviceTypeId);
        && lanes[StorageIndexTx] == MaintainedLane(old(lanes[StorageIndexTx]), old(StatusSettled()), requested)
        && chronoDeviceUpdateStart == (if requested then now else old(chronoDeviceUpdateStart))
        && deviceUpdateIntervalMillis == (if requested then registrationInterval else old(deviceUpdateIntervalMillis))
      ensures canDeviceType == protocol.readOnlyType ==>
        lanes[StorageIndexTx] == old(lanes[StorageIndexTx]) && currentRegistrationStatus == old(currentRegistrationStatus)
      ensures old(currentRegistrationStatus) != Registered ==> currentRegistrationStatus != Registered
    {
      ServiceStatus(now);
      Registration.StepCases(protocol, canDeviceType, isOnlineOverCan, currentRegistrationStatus);
      UpdateDeviceRegistration(now, registrationInterval);
    }

    /** The 100 fps gate of loop(): every MaintenanceInterval ms, restart the
        gate, stage a changed status, check presence and step registration.
        When it fires, TX receives the status (unless settled) and then the
        registration request (when one is made); afterwards the status is
        settled. When it does not fire, nothing but the clock is read. */
    method MaintenanceGate(now: uint32, registrationInterval: uint32)
      requires Valid()
      modifies this`chrono100FpsStart, this`lanes,
               this`lastDeviceStatus, this`lastDeviceProgress, this`lastDeviceProgressMax,
               this`isOnlineOverCan, this`currentRegistrationStatus,
               this`chronoDeviceUpdateStart, this`deviceUpdateIntervalMillis
      ensures Valid()
      ensures chrono100FpsStart ==
        if HasPassed(now, old(chrono100FpsStart), Scheduler.MaintenanceInterval) then now else old(chrono100FpsStart)
      ensures lanes[StorageIndexRx] == old(lanes[StorageIndexRx])
      ensures lanes[StorageIndexTx] ==
        if HasPassed(now, old(chrono100FpsStart), Scheduler.MaintenanceInterval)
        then MaintainedLane(old(lanes[StorageIndexTx]), old(StatusSettled()),
                            Registration.Requests(protocol, canDeviceType, isOnlineOverCan, old(currentRegistrationStatus))
                            && protocol.InDeviceTypeSection(deviceTypeId))
        else old(lanes[StorageIndexTx])
      ensures !HasPassed(now, old(chrono100FpsStart), Scheduler.MaintenanceInterval) ==>
        && isOnlineOverCan == old(isOnlineOverCan)
        && currentRegistrationStatus == old(currentRegistrationStatus)
        && lastDeviceStatus == old(lastDeviceStatus) && lastDeviceProgress == old(lastDeviceProgress)
        && lastDeviceProgressMax == old(lastDeviceProgressMax)
        && chronoDeviceUpdateStart == old(chronoDeviceUpdateStart)
        && deviceUpdateIntervalMillis == old(deviceUpdateIntervalMillis)
      ensures HasPassed(now, old(chrono100FpsStart), Scheduler.MaintenanceInterval) ==>
        && isOnlineOverCan == (old(isOnlineOverCan) && !TimedOut(lastRemoteHeartbeatMillis, protocol.heartbeatTimeout, now))
        && currentRegistrationStatus ==
             Registration.Step(protocol, canDeviceType, isOnlineOverCan, old(currentRegistrationStatus))
        && StatusSettled()
        && var requested := Registration.Requests(protocol, canDeviceType, isOnlineOverCan, old(currentRegistrationStatus))
                            && protocol.InDeviceTypeSection(deviceTypeId);
           && chronoDeviceUpdateStart == (if requested then now else old(chronoDeviceUpdateStart))
           && deviceUpdateIntervalMillis == (if requested then registrationInterval else old(deviceUpdateIntervalMillis))
      ensures canDeviceType == protocol.readOnlyType ==>
        lanes[StorageIndexTx] == old(lanes[StorageIndexTx]) && currentRegistrationStatus == old(currentRegistrationStatus)
      ensures old(currentRegistrationStatus) != Registered ==> currentRegistrationStatus != Registered
    {
      if HasPassed(now, chrono100FpsStart, Scheduler.MaintenanceInterval) {
        chrono100FpsStart := now;
        Maintain(now, registrationInterval);
      }
    }

    /** The two fixed-rate gates of loop(), in order: the TX flush, then the
        status, presence and registration gate. */
    method FixedRateGates(now: uint32, registrationInterval: uint32)
      requires Valid()
      modifies this`chrono200FpsStart, this`chrono100FpsStart, this`lanes, this`sent, this`lastCanTxMillis,
               this`lastDeviceStatus, this`lastDeviceProgress, this`lastDeviceProgressMax,
               this`isOnlineOverCan, this`currentRegistrationStatus,
               this`chronoDeviceUpdateStart, this`deviceUpdateIntervalMillis
      ensures Valid()
      ensures lanes[StorageIndexRx] == old(lanes[StorageIndexRx])
      ensures chrono200FpsStart ==
        if HasPassed(now, old(chrono200FpsStart), Scheduler.FlushInterval) then now else old(chrono200FpsStart)
      ensures chrono100FpsStart ==
        if HasPassed(now, old(chrono100FpsStart), Scheduler.MaintenanceInterval) then now else old(chrono100FpsStart)
      ensures sent == old(sent) + FlushedFrames(now, old(chrono200FpsStart), old(TxQueue()))
      ensures lastCanTxMillis == if |sent| > |old(sent)| then now else old(lastCanTxMillis)
      ensures !HasPassed(now, old(chrono100FpsStart), Scheduler.MaintenanceInterval) ==>
        && isOnlineOverCan == old(isOnlineOverCan)
        && currentRegistrationStatus == old(currentRegistrationStatus)
        && lastDeviceStatus == old(lastDeviceStatus) && lastDeviceProgress == old(lastDeviceProgress)
        && lastDeviceProgressMax == old(lastDeviceProgressMax)
        && chronoDeviceUpdateStart == old(chronoDeviceUpdateStart)
        && deviceUpdateIntervalMillis == old(deviceUpdateIntervalMillis)
      ensures HasPassed(now, old(chrono100FpsStart), Scheduler.MaintenanceInterval) ==>
        && isOnlineOverCan == (old(isOnlineOverCan) && !TimedOut(lastRemoteHeartbeatMillis, protocol.heartbeatTimeout, now))
        && currentRegistrationStatus ==
             Registration.Step(protocol, canDeviceType, isOnlineOverCan, old(currentRegistrationStatus))
        && StatusSettled()
        && var requested := Registration.Requests(protocol, canDeviceType, isOnlineOverCan, old(currentRegistrationStatus))
                            && protocol.InDeviceTypeSection(deviceTypeId);
           && chronoDeviceUpdateStart == (if requested then now else old(chronoDeviceUpdateStart))
           && deviceUpdateIntervalMillis == (if requested then registrationInterval else old(deviceUpdateIntervalMillis))
      ensures var flushes := HasPassed(now, old(chrono200FpsStart), Scheduler.FlushInterval)
                             && canDeviceType != protocol.readOnlyType;
        var k := Min(|old(TxQueue())|, Scheduler.TxBatch);
        var fired := HasPassed(now, old(chrono100FpsStart), Scheduler.MaintenanceInterval);
        var requested := Registration.Requests(protocol, canDeviceType, isOnlineOverCan, old(currentRegistrationStatus))
                         && protocol.InDeviceTypeSection(deviceTypeId);
        var flushed := if flushes then Drained(old(lanes[StorageIndexTx]), k, protocol.payloadBytes)
                       else old(lanes[StorageIndexTx]);
        lanes[StorageIndexTx] == if fired then MaintainedLane(flushed, old(StatusSettled()), requested) else flushed
      ensures canDeviceType == protocol.readOnlyType ==>
        lanes[StorageIndexTx] == old(lanes[StorageIndexTx]) && currentRegistrationStatus == old(currentRegistrationStatus)
      ensures old(currentRegistrationStatus) != Registered ==> currentRegistrationStatus != Registered
    {
      ghost var settled := StatusSettled();
      FlushGate(now);
      assert StatusSettled() == settled;
      MaintenanceGate(now, registrationInterval);
    }

    /** The two interval gates of loop(), in order: the heartbeat, sent when
        its interval has passed (READ_ONLY and roles without a heartbeat pmid
        send nothing), then the device info, staged every
        deviceUpdateIntervalMillis ms. Each restarts its Chrono before its
        work. */
    method IntervalGates(now: uint32, announceInterval: uint32)
      requires Valid()
      modifies this`chronoHeartbeatStart, this`sent, this`lastCanTxMillis, this`lastHeartBeatMillis,
               this`chronoDeviceUpdateStart, this`lanes, this`deviceUpdateIntervalMillis
      ensures Valid()
      ensures lanes[StorageIndexRx] == old(lanes[StorageIndexRx])
      ensures chronoHeartbeatStart ==
        if HasPassed(now, old(chronoHeartbeatStart), protocol.heartbeatInterval) then now else old(chronoHeartbeatStart)
      ensures sent == old(sent) + HeartbeatFrames(now, old(chronoHeartbeatStart), old(lastHeartBeatMillis))
      ensures lastCanTxMillis == if |sent| > |old(sent)| then now else old(lastCanTxMillis)
      ensures lastHeartBeatMillis == if |sent| > |old(sent)| then now else old(lastHeartBeatMillis)
      ensures chronoDeviceUpdateStart ==
        if HasPassed(now, old(chronoDeviceUpdateStart), old(deviceUpdateIntervalMillis)) then now else old(chronoDeviceUpdateStart)
      ensures !HasPassed(now, old(chronoDeviceUpdateStart), old(deviceUpdateIntervalMillis)) || canDeviceType == protocol.readOnlyType ==>
        lanes[StorageIndexTx] == old(lanes[StorageIndexTx]) && deviceUpdateIntervalMillis == old(deviceUpdateIntervalMillis)
      ensures HasPassed(now, old(chronoDeviceUpdateStart), old(deviceUpdateIntervalMillis)) && canDeviceType != protocol.readOnlyType ==>
        && lanes[StorageIndexTx] == StageAll(old(lanes[StorageIndexTx]), DeviceInfo(), protocol.TxLength(), protocol.payloadBytes)
        && deviceUpdateIntervalMillis == announceInterval
    {
      if HasPassed(now, chronoHeartbeatStart, protocol.heartbeatInterval) {
        chronoHeartbeatStart := now;
        SendHeartbeat(now);
      }
      if HasPassed(now, chronoDeviceUpdateStart, deviceUpdateIntervalMillis) {
        chronoDeviceUpdateStart := now;
        SendDeviceInfo(announceInterval);
      }
    }

    /** The four gates of one loop() tick, in order: the fixed-rate TX flush
        and maintenance gates, then the heartbeat and device-update gates. */
    method Gates(now: uint32, registrationInterval: uint32, announceInterval: uint32)
      requires Valid()
      modifies this`chrono200FpsStart, this`chrono100FpsStart, this`chronoHeartbeatStart,
               this`lanes, this`sent, this`lastCanTxMillis, this`lastHeartBeatMillis,
               this`lastDeviceStatus, this`lastDeviceProgress, this`lastDeviceProgressMax,
               this`isOnlineOverCan, this`currentRegistrationStatus,
               this`chronoDeviceUpdateStart, this`deviceUpdateIntervalMillis
      ensures Valid()
      ensures lanes[StorageIndexRx] == old(lanes[StorageIndexRx])
      ensures chrono200FpsStart ==
        if HasPassed(now, old(chrono200FpsStart), Scheduler.FlushInterval) then now else old(chrono200FpsStart)
      ensures chrono100FpsStart ==
        if HasPassed(now, old(chrono100FpsStart), Scheduler.MaintenanceInterval) then now else old(chrono100FpsStart)
      ensures chronoHeartbeatStart ==
        if HasPassed(now, old(chronoHeartbeatStart), protocol.heartbeatInterval) then now else old(chronoHeartbeatStart)
      ensures var requested := HasPassed(now, old(chrono100FpsStart), Scheduler.MaintenanceInterval)
                               && Registration.Requests(protocol, canDeviceType, isOnlineOverCan, old(currentRegistrationStatus))
                               && protocol.InDeviceTypeSection(deviceTypeId);
        var start := if requested then now else old(chronoDeviceUpdateStart);
        var interval := if requested then registrationInterval else old(deviceUpdateIntervalMillis);
        && chronoDeviceUpdateStart == (if HasPassed(now, start, interval) then now else start)
        && deviceUpdateIntervalMillis ==
             if HasPassed(now, start, interval) && canDeviceType != protocol.readOnlyType then announceInterval else interval
      ensures sent == old(sent) + FlushedFrames(now, old(chrono200FpsStart), old(TxQueue()))
                                + HeartbeatFrames(now, old(chronoHeartbeatStart), old(lastHeartBeatMillis))
      ensures lastCanTxMillis == if |sent| > |old(sent)| then now else old(lastCanTxMillis)
      ensures isOnlineOverCan ==
        (old(isOnlineOverCan)
         && !(HasPassed(now, old(chrono100FpsStart), Scheduler.MaintenanceInterval)
              && TimedOut(lastRemoteHeartbeatMillis, protocol.heartbeatTimeout, now)))
      ensures HasPassed(now, old(chrono100FpsStart), Scheduler.MaintenanceInterval) ==>
        currentRegistrationStatus == Registration.Step(protocol, canDeviceType, isOnlineOverCan, old(currentRegistrationStatus))
      ensures !HasPassed(now, old(chrono100FpsStart), Scheduler.MaintenanceInterval) ==>
        currentRegistrationStatus == old(currentRegistrationStatus)
      ensures canDeviceType == protocol.readOnlyType ==>
        sent == old(sent) && lanes[StorageIndexTx] == old(lanes[StorageIndexTx]) && lastCanTxMillis == old(lastCanTxMillis)
      ensures old(currentRegistrationStatus) != Registered ==> currentRegistrationStatus != Registered
    {
      FixedRateGates(now, registrationInterval);
      IntervalGates(now, announceInterval);
    }

    /** loop(): route at most eight waiting frames, then check the four gates
        in order (TX flush every 5 ms, status/presence/registration every
        10 ms, heartbeat, device update); a gate that fires restarts its timer
        before its work. `waiting` is the driver's receive FIFO; the frames
        left waiting are returned. `registrationInterval` and
        `announceInterval` are the randomised device-update intervals drawn
        by a registration request and by the device-update gate.
        After one tick the receive side is rxCan's effect over the routed
        frames (ReceiveAll). What goes out on the bus is the flushed TX batch
        followed by the heartbeat. When the 10 ms gate fires, presence is
        checked against the drain's last remote heartbeat, and the
        registration state takes one step from the checked presence. */
    method Loop(now: uint32, waiting: seq<CanFrame>, registrationInterval: uint32, announceInterval: uint32)
      returns (stillWaiting: seq<CanFrame>)
      requires Valid()
      modifies this`lanes,
               this`routed, this`sent,
               this`isOnlineOverCan, this`lastCanRxMillis, this`lastCanTxMillis,
               this`lastRemoteHeartbeatMillis, this`lastHeartBeatMillis, this`currentRegistrationStatus,
               this`lastDeviceStatus, this`lastDeviceProgress, this`lastDeviceProgressMax,
               this`chrono200FpsStart, this`chrono100FpsStart, this`chronoHeartbeatStart,
               this`chronoDeviceUpdateStart, this`deviceUpdateIntervalMillis
      ensures Valid()
      ensures routed == old(routed) + Scheduler.Drain(waiting, Scheduler.RxBatch).0
      ensures stillWaiting == Scheduler.Drain(waiting, Scheduler.RxBatch).1
      ensures |routed| - |old(routed)| == Min(|waiting|, Scheduler.RxBatch)
      ensures chrono200FpsStart ==
        if HasPassed(now, old(chrono200FpsStart), Scheduler.FlushInterval) then now else old(chrono200FpsStart)
      ensures chrono100FpsStart ==
        if HasPassed(now, old(chrono100FpsStart), Scheduler.MaintenanceInterval) then now else old(chrono100FpsStart)
      ensures chronoHeartbeatStart ==
        if HasPassed(now, old(chronoHeartbeatStart), protocol.heartbeatInterval) then now else old(chronoHeartbeatStart)
      ensures var requested := HasPassed(now, old(chrono100FpsStart), Scheduler.MaintenanceInterval)
                               && Registration.Requests(protocol, canDeviceType, isOnlineOverCan, old(currentRegistrationStatus))
                               && protocol.InDeviceTypeSection(deviceTypeId);
        var start := if requested then now else old(chronoDeviceUpdateStart);
        var interval := if requested then registrationInterval else old(deviceUpdateIntervalMillis);
        && chronoDeviceUpdateStart == (if HasPassed(now, start, interval) then now else start)
        && deviceUpdateIntervalMillis ==
             if HasPassed(now, start, interval) && canDeviceType != protocol.readOnlyType then announceInterval else interval
      ensures sent == old(sent) + FlushedFrames(now, old(chrono200FpsStart), old(TxQueue()))
                                + HeartbeatFrames(now, old(chronoHeartbeatStart), old(lastHeartBeatMillis))
      ensures lastCanTxMillis == if |sent| > |old(sent)| then now else old(lastCanTxMillis)
      ensures var drained := ReceiveAll(old(Received()), Scheduler.Drain(waiting, Scheduler.RxBatch).0, now);
        && lanes[StorageIndexRx] == drained.rx
        && lastCanRxMillis == drained.lastCanRx
        && lastRemoteHeartbeatMillis == drained.lastRemoteHeartbeat
        && isOnlineOverCan ==
             (drained.online
              && !(HasPassed(now, old(chrono100FpsStart), Scheduler.MaintenanceInterval)
                   && TimedOut(drained.lastRemoteHeartbeat, protocol.heartbeatTimeout, now)))
      ensures HasPassed(now, old(chrono100FpsStart), Scheduler.MaintenanceInterval) ==>
        currentRegistrationStatus == Registration.Step(protocol, canDeviceType, isOnlineOverCan, old(currentRegistrationStatus))
      ensures !HasPassed(now, old(chrono100FpsStart), Scheduler.MaintenanceInterval) ==>
        currentRegistrationStatus == old(currentRegistrationStatus)
      ensures canDeviceType == protocol.readOnlyType ==>
        sent == old(sent) && lanes[StorageIndexTx] == old(lanes[StorageIndexTx]) && lastCanTxMillis == old(lastCanTxMillis)
      ensures old(currentRegistrationStatus) != Registered ==> currentRegistrationStatus != Registered
    {
      stillWaiting := ReceiveBatch(now, waiting);
      Gates(now, registrationInterval, announceInterval);
    }
  }
}
