/** Machine integers, the staged-message slot, the registration states and
    the narrow interface to the protocol codec that the device core relies on. */
module CanTypes {

  newtype uint8 = x: int | 0 <= x < 0x100
  newtype uint16 = x: int | 0 <= x < 0x1_0000
  newtype uint32 = x: int | 0 <= x < 0x1_0000_0000
  newtype uint64 = x: int | 0 <= x < 0x1_0000_0000_0000_0000
  type byte = uint8

  /** CAN_BUFFER_STORAGE_MAX_SIZE: slots per direction. */
  const StorageMaxSize: nat := 64
  /** CAN_BUFFER_STORAGE_INDEX_RX and CAN_BUFFER_STORAGE_INDEX_TX. */
  const StorageIndexRx: uint8 := 0
  const StorageIndexTx: uint8 := 1
  /** A classic CAN frame carries at most eight data bytes. */
  const FrameDataBytes: nat := 8

  datatype Option<T> = None | Some(value: T)

  function Min(a: int, b: int): int { if a <= b then a else b }

  /** One slot of the staging storage (struct CanBuffer): no length field,
      the payload always has the protocol's payload size. */
  datatype CanBuffer = CanBuffer(uid: uint16, pmid: uint16, payload: seq<byte>)

  datatype RegistrationStatus = Unregistered | RegistrationPending | Registered | Registrar

  /** The numeric value each state has in the enum RegistrationStatus. */
  function RegistrationCode(s: RegistrationStatus): (code: uint8)
    ensures code < 4
    ensures code == 0 <==> s == Unregistered
    ensures code == 1 <==> s == RegistrationPending
    ensures code == 2 <==> s == Registered
    ensures code == 3 <==> s == Registrar
  {
    match s
    case Unregistered => 0
    case RegistrationPending => 1
    case Registered => 2
    case Registrar => 3
  }

  /** A parsed bus identifier: protocol message id and device uid. */
  datatype MessageId = MessageId(pmid: uint16, uid: uint16)

  /** A bus frame: its numeric identifier and the data bytes it carries
      (the frame's length is the length of `data`). */
  datatype Frame = Frame(id: uint32, data: seq<byte>)
  type CanFrame = f: Frame | |f.data| <= FrameDataBytes witness Frame(0, [])

  /** The protocol codec the core consumes: its constants, its numeric
      ranges, its role lookups (0 means "no such message for this role"),
      its identifier codec and its payload encoders. Nothing of its byte
      layout is modelled: the encoders are opaque function values. */
  datatype Protocol = Protocol(
    payloadBytes: nat,                  // CAN_PAYLOAD_MESSAGE_BYTES
    messageLength: nat,                 // getMessageLength(), the txMessage length
    readOnlyType: uint8,                // CanDeviceType::READ_ONLY
    controllerType: uint8,              // CanDeviceType::CONTROLLER
    addressedFilterStart: int,          // REQUEST_ADDRESSED_FILTER_START
    addressedFilterEnd: int,            // REQUEST_ADDRESSED_FILTER_END
    heartbeatsStart: int,               // HEARTBEATS_START
    heartbeatsEnd: int,                 // HEARTBEATS_END
    deviceTypeSectionStart: int,        // DEVICE_TYPE_SECTION_START
    deviceTypeSectionEnd: int,          // DEVICE_TYPE_SECTION_END
    deviceSerial: uint16,               // pmid DEVICE_SERIAL
    deviceTypeIdPmid: uint16,           // pmid DEVICE_TYPE_ID
    deviceModel: uint16,                // pmid DEVICE_MODEL
    deviceVendor: uint16,               // pmid DEVICE_VENDOR
    deviceShortName: uint16,            // pmid DEVICE_SHORT_NAME
    heartbeatInterval: uint32,          // getHeartbeatIntervalRateInMillis()
    heartbeatTimeout: uint32,           // getHeartbeatTimeoutTresholdInMillis()
    deviceUpdateInterval: uint32,       // getDeviceUpdateIntervalRateInMillis() before any randomisation
    parseMessageId: uint32 -> MessageId,
    encodeMessageId: (uint16, uint16) -> uint32,
    targetUidOf: seq<byte> -> uint16,   // extractUint16FromBuffer(buf, len, 0)
    deviceTypeOf: uint32 -> uint8,      // extractCanDeviceTypeFromDeviceTypeId
    heartbeatPmidFor: uint8 -> uint16,
    statusPmidFor: uint8 -> uint16,
    mainTimerPmidFor: uint8 -> uint16,
    validationTimerPmidFor: uint8 -> uint16,
    internalTimerPmidFor: uint8 -> uint16,
    encodeSerial: uint64 -> seq<byte>,
    encodeTypeId: uint32 -> seq<byte>,
    encodeModel: seq<char> -> seq<byte>,
    encodeVendor: seq<char> -> seq<byte>,
    encodeShortName: seq<char> -> seq<byte>,
    encodeStatus: (uint32, uint16, uint16) -> seq<byte>,
    encodeTimers: (uint32, uint32) -> seq<byte>,
    encodeHeartbeat: (uint32, uint32) -> seq<byte>
  ) {
    /** What the core assumes of the codec: a non-empty payload that fits a
        CAN frame, a message length that fits a CAN frame, and encoders that
        fill the whole payload buffer they are given. */
    ghost predicate Wellformed() {
      && 0 < payloadBytes <= FrameDataBytes
      && messageLength <= FrameDataBytes
      && (forall v :: |encodeSerial(v)| == payloadBytes)
      && (forall v :: |encodeTypeId(v)| == payloadBytes)
      && (forall s :: |encodeModel(s)| == payloadBytes)
      && (forall s :: |encodeVendor(s)| == payloadBytes)
      && (forall s :: |encodeShortName(s)| == payloadBytes)
      && (forall a, b, c :: |encodeStatus(a, b, c)| == payloadBytes)
      && (forall a, b :: |encodeTimers(a, b)| == payloadBytes)
    }

    /** min(CAN_PAYLOAD_MESSAGE_BYTES, txMessage.len): the number of bytes
        every transmit path encodes, stages and copies. */
    function TxLength(): (n: nat)
      ensures n <= payloadBytes && n <= messageLength
      ensures n == payloadBytes || n == messageLength
    {
      Min(payloadBytes, messageLength)
    }

    predicate InHeartbeatRange(pmid: uint16) {
      heartbeatsStart < pmid as int < heartbeatsEnd
    }

    predicate InAddressedRange(pmid: uint16) {
      addressedFilterStart < pmid as int < addressedFilterEnd
    }

    predicate InDeviceTypeSection(typeId: uint32) {
      deviceTypeSectionStart < typeId as int < deviceTypeSectionEnd
    }
  }
}
