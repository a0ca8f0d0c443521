/**
 * The constant table of the legacy Nordic DFU service: file types, progress
 * markers, the layered error-code scheme, pause/resume/abort actions, DFU
 * status codes, control-point op-codes and their fixed command packets, the
 * packet size and the connection-state codes; plus the initial values of the
 * service's instance fields.
 */
module DfuBaseService {
  import opened CSharp

  // ---------------------------------------------------------------------
  // File types: a bitmask of the images a transfer carries

  const TypeSoftDevice: Int32 := 0x01
  const TypeBootloader: Int32 := 0x02
  const TypeApplication: Int32 := 0x04
  /** No bit set: the images are taken from the ZIP's contents. */
  const TypeAuto: Int32 := 0x00

  // ---------------------------------------------------------------------
  // Progress markers, reported in place of a percentage

  const ProgressConnecting: Int32 := -1
  const ProgressStarting: Int32 := -2
  const ProgressEnablingDfuMode: Int32 := -3
  const ProgressValidating: Int32 := -4
  const ProgressDisconnecting: Int32 := -5
  const ProgressCompleted: Int32 := -6
  const ProgressAborted: Int32 := -7

  const ProgressMarkers: seq<Int32> := [ProgressConnecting, ProgressStarting, ProgressEnablingDfuMode,
    ProgressValidating, ProgressDisconnecting, ProgressCompleted, ProgressAborted]

  // ---------------------------------------------------------------------
  // Error types and error codes

  const ErrorTypeOther: Int32 := 0
  const ErrorTypeCommunicationState: Int32 := 1
  const ErrorTypeCommunication: Int32 := 2
  const ErrorTypeDfuRemote: Int32 := 3

  /** Set in every progress value that reports an error. */
  const ErrorMask: Int32 := 0x1000
  const ErrorDeviceDisconnected: Int32 := ErrorMask
  const ErrorFileNotFound: Int32 := BitOr(ErrorMask, 0x01)
  const ErrorFileError: Int32 := BitOr(ErrorMask, 0x02)
  const ErrorFileInvalid: Int32 := BitOr(ErrorMask, 0x03)
  const ErrorFileIOxception: Int32 := BitOr(ErrorMask, 0x04)
  const ErrorServiceDiscoveryNotStarted: Int32 := BitOr(ErrorMask, 0x05)
  const ErrorServiceNotFound: Int32 := BitOr(ErrorMask, 0x06)
  const ErrorCharacteristicsNotFound: Int32 := BitOr(ErrorMask, 0x07)
  const ErrorInvalidResponse: Int32 := BitOr(ErrorMask, 0x08)
  const ErrorFileTypeUnsupported: Int32 := BitOr(ErrorMask, 0x09)
  const ErrorBluetoothDisabled: Int32 := BitOr(ErrorMask, 0x0A)
  /** Set when the DFU target answered with a DFU status other than success. */
  const ErrorRemoteMask: Int32 := 0x2000
  /** Set when a GATT callback reported a status other than success. */
  const ErrorConnectionMask: Int32 := 0x4000
  /** Set when the connection-state callback reported a status other than success. */
  const ErrorConnectionStateMask: Int32 := 0x8000

  /** The local error codes, in the order of their low bits 0x00..0x0A. */
  const LocalErrors: seq<Int32> := [ErrorDeviceDisconnected, ErrorFileNotFound, ErrorFileError,
    ErrorFileInvalid, ErrorFileIOxception, ErrorServiceDiscoveryNotStarted, ErrorServiceNotFound,
    ErrorCharacteristicsNotFound, ErrorInvalidResponse, ErrorFileTypeUnsupported, ErrorBluetoothDisabled]

  const ErrorMasks: seq<Int32> := [ErrorMask, ErrorRemoteMask, ErrorConnectionMask, ErrorConnectionStateMask]

  // ---------------------------------------------------------------------
  // Actions a client broadcasts to the running service

  const ActionPause: Int32 := 0
  const ActionResume: Int32 := 1
  const ActionAbort: Int32 := 2

  // ---------------------------------------------------------------------
  // DFU status values returned by the target

  const DfuStatusSuccess: Int32 := 1
  const DfuStatusInvalidState: Int32 := 2
  const DfuStatusNotSupported: Int32 := 3
  const DfuStatusDataSizeExceedsLimit: Int32 := 4
  const DfuStatusCrcError: Int32 := 5
  const DfuStatusOperationFailed: Int32 := 6

  const DfuStatuses: seq<Int32> := [DfuStatusSuccess, DfuStatusInvalidState, DfuStatusNotSupported,
    DfuStatusDataSizeExceedsLimit, DfuStatusCrcError, DfuStatusOperationFailed]

  // ---------------------------------------------------------------------
  // Control-point op-codes and command packets

  const OpCodeStartDfuKey: Byte := 0x01
  const OpCodeInitDfuParamsKey: Byte := 0x02
  const OpCodeReceiveFirmwareImageKey: Byte := 0x03
  const OpCodeValidateKey: Byte := 0x04
  const OpCodeActivateAndResetKey: Byte := 0x05
  const OpCodeResetKey: Byte := 0x06
  const OpCodePacketReceiptNotifReqKey: Byte := 0x08
  /** First byte of every response the target sends on the control point. */
  const OpCodeResponseCodeKey: Byte := 0x10
  /** First byte of a packet receipt notification. */
  const OpCodePacketReceiptNotifKey: Byte := 0x11

  const OpCodeStartDfu: seq<Byte> := [OpCodeStartDfuKey, 0x00]
  const OpCodeInitDfuParamsStart: seq<Byte> := [OpCodeInitDfuParamsKey, 0x00]
  const OpCodeInitDfuParamsComplete: seq<Byte> := [OpCodeInitDfuParamsKey, 0x01]
  const OpCodeReceiveFirmwareImage: seq<Byte> := [OpCodeReceiveFirmwareImageKey]
  const OpCodeValidate: seq<Byte> := [OpCodeValidateKey]
  const OpCodeActivateAndReset: seq<Byte> := [OpCodeActivateAndResetKey]
  const OpCodeReset: seq<Byte> := [OpCodeResetKey]
  const OpCodePacketReceiptNotifReq: seq<Byte> := [OpCodePacketReceiptNotifReqKey, 0x00, 0x00]

  /** The op-codes the client sends. */
  const OutgoingKeys: seq<Byte> := [OpCodeStartDfuKey, OpCodeInitDfuParamsKey, OpCodeReceiveFirmwareImageKey,
    OpCodeValidateKey, OpCodeActivateAndResetKey, OpCodeResetKey, OpCodePacketReceiptNotifReqKey]

  /** The command packets, each paired with the op-code it must start with. */
  const CommandPackets: seq<(Byte, seq<Byte>)> := [
    (OpCodeStartDfuKey, OpCodeStartDfu),
    (OpCodeInitDfuParamsKey, OpCodeInitDfuParamsStart),
    (OpCodeInitDfuParamsKey, OpCodeInitDfuParamsComplete),
    (OpCodeReceiveFirmwareImageKey, OpCodeReceiveFirmwareImage),
    (OpCodeValidateKey, OpCodeValidate),
    (OpCodeActivateAndResetKey, OpCodeActivateAndReset),
    (OpCodeResetKey, OpCodeReset),
    (OpCodePacketReceiptNotifReqKey, OpCodePacketReceiptNotifReq)]

  /** The maximum number of bytes in one packet. */
  const MaxPacketSize: Int32 := 20

  // ---------------------------------------------------------------------
  // Connection states; a positive value is reserved for an error number

  const StateDisconnected: Int32 := 0
  const StateConnecting: Int32 := -1
  const StateConnected: Int32 := -2
  const StateConnectedAndReady: Int32 := -3
  const StateDisconnecting: Int32 := -4
  const StateClosed: Int32 := -5

  const ConnectionStates: seq<Int32> := [StateDisconnected, StateConnecting, StateConnected,
    StateConnectedAndReady, StateDisconnecting, StateClosed]

  // ---------------------------------------------------------------------
  // Classifying a progress value

  /** A value broadcast as progress: a percentage or one of the markers. */
  predicate IsProgressValue(v: int)
  {
    0 <= v <= 100 || v in ProgressMarkers
  }

  /** The documented test a client applies to tell an error from progress. */
  predicate IsError(v: int)
  {
    v >= ErrorMask
  }

  /** All elements of `s` are different. */
  predicate Distinct<T(==)>(s: seq<T>)
  {
    forall i, j :: 0 <= i < j < |s| ==> s[i] != s[j]
  }

  // ---------------------------------------------------------------------
  // Properties of the table

  /** The file types are the distinct single bits 1, 2, 4; Auto is the empty mask. */
  lemma FileTypeBits()
    ensures TypeSoftDevice == Pow2(0) && TypeBootloader == Pow2(1) && TypeApplication == Pow2(2)
    ensures BitAnd(TypeSoftDevice, TypeBootloader) == 0 && BitAnd(TypeSoftDevice, TypeApplication) == 0
    ensures BitAnd(TypeBootloader, TypeApplication) == 0
    ensures TypeAuto == 0
  {
    Pow2Values();
    AndDistinctBits(0, 1);
    AndDistinctBits(0, 2);
    AndDistinctBits(1, 2);
  }

  /** The local error codes, written out: ErrorMask | k is 0x1000 + k. */
  lemma LocalErrorValues()
    ensures ErrorDeviceDisconnected == 0x1000 && ErrorFileNotFound == 0x1001 && ErrorFileError == 0x1002
    ensures ErrorFileInvalid == 0x1003 && ErrorFileIOxception == 0x1004
    ensures ErrorServiceDiscoveryNotStarted == 0x1005 && ErrorServiceNotFound == 0x1006
    ensures ErrorCharacteristicsNotFound == 0x1007 && ErrorInvalidResponse == 0x1008
    ensures ErrorFileTypeUnsupported == 0x1009 && ErrorBluetoothDisabled == 0x100A
  {
    Pow2Values();
    OrHighBit(12, 0x01);
    OrHighBit(12, 0x02);
    OrHighBit(12, 0x03);
    OrHighBit(12, 0x04);
    OrHighBit(12, 0x05);
    OrHighBit(12, 0x06);
    OrHighBit(12, 0x07);
    OrHighBit(12, 0x08);
    OrHighBit(12, 0x09);
    OrHighBit(12, 0x0A);
  }

  /** Local error k is ErrorMask | k for k = 0x00..0x0A, so it lies in [0x1000, 0x2000). */
  lemma LocalErrorCodes()
    ensures |LocalErrors| == 11 && Distinct(LocalErrors)
    ensures forall k :: 0 <= k < |LocalErrors| ==> LocalErrors[k] == ErrorMask + k
    ensures forall k :: 0 <= k < |LocalErrors| ==> ErrorMask <= LocalErrors[k] < ErrorRemoteMask
  {
    LocalErrorValues();
    assert LocalErrors == [0x1000, 0x1001, 0x1002, 0x1003, 0x1004, 0x1005, 0x1006, 0x1007, 0x1008, 0x1009, 0x100A];
  }

  /** The four category masks are single bits and pairwise disjoint. */
  lemma ErrorMasksDisjoint()
    ensures ErrorMask == Pow2(12) && ErrorRemoteMask == Pow2(13)
    ensures ErrorConnectionMask == Pow2(14) && ErrorConnectionStateMask == Pow2(15)
    ensures BitAnd(ErrorMask, ErrorRemoteMask) == 0 && BitAnd(ErrorMask, ErrorConnectionMask) == 0
    ensures BitAnd(ErrorMask, ErrorConnectionStateMask) == 0 && BitAnd(ErrorRemoteMask, ErrorConnectionMask) == 0
    ensures BitAnd(ErrorRemoteMask, ErrorConnectionStateMask) == 0 && BitAnd(ErrorConnectionMask, ErrorConnectionStateMask) == 0
  {
    Pow2Values();
    AndDistinctBits(12, 13);
    AndDistinctBits(12, 14);
    AndDistinctBits(12, 15);
    AndDistinctBits(13, 14);
    AndDistinctBits(13, 15);
    AndDistinctBits(14, 15);
  }

  /**
   * Every progress value is below ErrorMask, so the documented test
   * `v >= ErrorMask` never mistakes progress for an error, and it accepts every
   * local error code, every category mask and every status a mask is OR-ed
   * onto. The seven markers are distinct.
   */
  lemma ProgressBelowErrors(v: int)
    ensures IsProgressValue(v) ==> !IsError(v)
    ensures forall k :: 0 <= k < |LocalErrors| ==> IsError(LocalErrors[k])
    ensures forall k :: 0 <= k < |ErrorMasks| ==> IsError(ErrorMasks[k])
    ensures forall m, s: nat :: m in ErrorMasks ==> IsError(BitOr(m, s))
    ensures Distinct(ProgressMarkers) && forall k :: 0 <= k < |ProgressMarkers| ==> ProgressMarkers[k] == -(k + 1)
  {
  }

  /** The DFU statuses are exactly 1..6, distinct; only DfuStatusSuccess is 1. */
  lemma DfuStatusRange()
    ensures Distinct(DfuStatuses)
    ensures forall k :: 0 <= k < |DfuStatuses| ==> DfuStatuses[k] == k + 1
    ensures forall s :: s in DfuStatuses <==> 1 <= s <= 6
  {
  }

  /**
   * Each command packet is fixed and starts with its op-code; the outgoing
   * op-codes are pairwise distinct and neither incoming marker is one of them.
   */
  lemma OpCodeTable()
    ensures forall k :: 0 <= k < |CommandPackets| ==> |CommandPackets[k].1| > 0 && CommandPackets[k].1[0] == CommandPackets[k].0
    ensures OpCodeStartDfu == [1, 0] && OpCodeInitDfuParamsStart == [2, 0] && OpCodeInitDfuParamsComplete == [2, 1]
    ensures OpCodeReceiveFirmwareImage == [3] && OpCodeValidate == [4] && OpCodeActivateAndReset == [5] && OpCodeReset == [6]
    ensures OpCodePacketReceiptNotifReq == [8, 0, 0]
    ensures Distinct(OutgoingKeys)
    ensures OpCodeResponseCodeKey !in OutgoingKeys && OpCodePacketReceiptNotifKey !in OutgoingKeys
    ensures OpCodeResponseCodeKey != OpCodePacketReceiptNotifKey
  {
  }

  /** The connection states are 0 and -1..-5, distinct and none positive. */
  lemma ConnectionStateCodes()
    ensures Distinct(ConnectionStates)
    ensures forall k :: 0 <= k < |ConnectionStates| ==> ConnectionStates[k] == -k
    ensures forall s :: s in ConnectionStates ==> s <= 0
  {
  }

  /**
   * The instance fields of the service and the values their initialisers
   * give them. Only the packet buffer and the PRN interval are initialised
   * explicitly; every other field starts at its default.
   */
  class Service {
    const buffer: array<Byte>
    var connectionState: Int32
    var error: Int32
    var notificationsEnabled: bool
    var serviceChangedIndicationsEnabled: bool
    var packetsBeforeNotification: Int32
    var imageSizeInBytes: Int32
    var bytesSent: Int32
    var bytesConfirmed: Int32
    var packetsSentSinceNotification: Int32
    var lastBytesSent: Int32
    var partCurrent: Int32
    var partsTotal: Int32
    var fileType: Int32
    var resetRequestSent: bool
    var imageSizeSent: bool
    var initPacketSent: bool
    var requestCompleted: bool
    var remoteErrorOccurred: bool
    var paused: bool
    var aborted: bool

    constructor ()
      ensures fresh(buffer) && buffer.Length == MaxPacketSize
      ensures forall i :: 0 <= i < buffer.Length ==> buffer[i] == 0
      ensures packetsBeforeNotification == 10
      ensures connectionState == StateDisconnected && error == 0
      ensures imageSizeInBytes == 0 && bytesSent == 0 && bytesConfirmed == 0
      ensures packetsSentSinceNotification == 0 && lastBytesSent == 0
      ensures partCurrent == 0 && partsTotal == 0 && fileType == TypeAuto
      ensures !notificationsEnabled && !serviceChangedIndicationsEnabled
      ensures !resetRequestSent && !imageSizeSent && !initPacketSent && !requestCompleted
      ensures !remoteErrorOccurred && !paused && !aborted
    {
      buffer := new Byte[MaxPacketSize](_ => 0);
      connectionState, error := 0, 0;
      notificationsEnabled, serviceChangedIndicationsEnabled := false, false;
      packetsBeforeNotification := 10;
      imageSizeInBytes, bytesSent, bytesConfirmed := 0, 0, 0;
      packetsSentSinceNotification, lastBytesSent := 0, 0;
      partCurrent, partsTotal, fileType := 0, 0, 0;
      resetRequestSent, imageSizeSent, initPacketSent, requestCompleted := false, false, false, false;
      remoteErrorOccurred, paused, aborted := false, false, false;
    }
  }
}
