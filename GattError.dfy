/**
 * Names of the status numbers Android's Bluetooth stack (bluedroid's
 * gatt_api.h) and the DFU service report: one decoder for the status of a
 * connection-state change, one for every other GATT callback status, which
 * also knows the DFU service's own error codes.
 */
module GattError {
  import opened CSharp
  import opened DfuBaseService

  const UnknownPrefix: string := "UNKNOWN ("

  /** The text for a number no case names: `"UNKNOWN (" + error + ")"`. */
  function Unknown(error: Int32): string
  {
    UnknownPrefix + Decimal(error) + ")"
  }

  /** Whether a name has the shape `Unknown` gives it. */
  predicate IsUnknown(name: string)
  {
    |name| > |UnknownPrefix| && name[..|UnknownPrefix|] == UnknownPrefix && name[|name| - 1] == ')'
  }

  /** The status codes `ParseConnectionError` has a case for. */
  const ConnectionErrorCodes: set<Int32> := {0, 0x01, 0x08, 0x13, 0x16, 0x3E, 0x22, 0x0100, 0x0085}

  /** Name of the status reported with a connection-state change. */
  function ParseConnectionError(error: Int32): string
  {
    if error == 0 then "SUCCESS"
    else if error == 0x01 then "GATT CONN L2C FAILURE"
    else if error == 0x08 then "GATT CONN TIMEOUT"
    else if error == 0x13 then "GATT CONN TERMINATE PEER USER"
    else if error == 0x16 then "GATT CONN TERMINATE LOCAL HOST"
    else if error == 0x3E then "GATT CONN FAIL ESTABLISH"
    else if error == 0x22 then "GATT CONN LMP TIMEOUT"
    else if error == 0x0100 then "GATT CONN CANCEL "
    else if error == 0x0085 then "GATT ERROR"
    else Unknown(error)
  }

  /** The GATT status codes `Parse` has a case for. */
  const GattCodes: set<Int32> := {
    0x0001, 0x0002, 0x0003, 0x0004, 0x0005, 0x0006, 0x0007, 0x0008, 0x0009, 0x000a, 0x000b,
    0x000c, 0x000d, 0x000e, 0x000f, 0x0010, 0x0011, 0x0087, 0x0080, 0x0081, 0x0082, 0x0083,
    0x0084, 0x0085, 0x0086, 0x0088, 0x0089, 0x008a, 0x008b, 0x008c, 0x008d, 0x008e, 0x01FF,
    0x0101, 0x00FF}

  /** The local DFU error codes `Parse` has a case for: all but ErrorInvalidResponse. */
  const NamedLocalErrors: set<Int32> := {
    ErrorDeviceDisconnected, ErrorFileError, ErrorFileInvalid, ErrorFileIOxception, ErrorFileNotFound,
    ErrorServiceDiscoveryNotStarted, ErrorServiceNotFound, ErrorCharacteristicsNotFound,
    ErrorFileTypeUnsupported, ErrorBluetoothDisabled}

  /**
   * Name of a status reported by any other GATT callback, or of an error the
   * DFU service reports. A remote DFU error is ErrorRemoteMask (bit 13) set on
   * the status the target returned: only that bit is cleared before the status
   * is matched.
   */
  function Parse(error: Int32): string
  {
    if error == 0x0001 then "GATT INVALID HANDLE"
    else if error == 0x0002 then "GATT READ NOT PERMIT"
    else if error == 0x0003 then "GATT WRITE NOT PERMIT"
    else if error == 0x0004 then "GATT INVALID PDU"
    else if error == 0x0005 then "GATT INSUF AUTHENTICATION"
    else if error == 0x0006 then "GATT REQ NOT SUPPORTED"
    else if error == 0x0007 then "GATT INVALID OFFSET"
    else if error == 0x0008 then "GATT INSUF AUTHORIZATION"
    else if error == 0x0009 then "GATT PREPARE Q FULL"
    else if error == 0x000a then "GATT NOT FOUND"
    else if error == 0x000b then "GATT NOT LONG"
    else if error == 0x000c then "GATT INSUF KEY SIZE"
    else if error == 0x000d then "GATT INVALID ATTR LEN"
    else if error == 0x000e then "GATT ERR UNLIKELY"
    else if error == 0x000f then "GATT INSUF ENCRYPTION"
    else if error == 0x0010 then "GATT UNSUPPORT GRP TYPE"
    else if error == 0x0011 then "GATT INSUF RESOURCE"
    else if error == 0x0087 then "GATT ILLEGAL PARAMETER"
    else if error == 0x0080 then "GATT NO RESOURCES"
    else if error == 0x0081 then "GATT INTERNAL ERROR"
    else if error == 0x0082 then "GATT WRONG STATE"
    else if error == 0x0083 then "GATT DB FULL"
    else if error == 0x0084 then "GATT BUSY"
    else if error == 0x0085 then "GATT ERROR"
    else if error == 0x0086 then "GATT CMD STARTED"
    else if error == 0x0088 then "GATT PENDING"
    else if error == 0x0089 then "GATT AUTH FAIL"
    else if error == 0x008a then "GATT MORE"
    else if error == 0x008b then "GATT INVALID CFG"
    else if error == 0x008c then "GATT SERVICE STARTED"
    else if error == 0x008d then "GATT ENCRYPTED NO MITM"
    else if error == 0x008e then "GATT NOT ENCRYPTED"
    else if error == 0x01FF then "GATT VALUE OUT OF RANGE"
    else if error == 0x0101 then "TOO MANY OPEN CONNECTIONS"
    else if error == 0x00FF then "DFU SERVICE DISCOVERY NOT STARTED"
    else if error == ErrorDeviceDisconnected then "DFU DEVICE DISCONNECTED"
    else if error == ErrorFileError then "DFU FILE ERROR"
    else if error == ErrorFileInvalid then "DFU NOT A VALID HEX FILE"
    else if error == ErrorFileIOxception then "DFU IO EXCEPTION"
    else if error == ErrorFileNotFound then "DFU FILE NOT FOUND"
    else if error == ErrorServiceDiscoveryNotStarted then "DFU ERROR WHILE SERVICE DISCOVERY"
    else if error == ErrorServiceNotFound then "DFU SERVICE NOT FOUND"
    else if error == ErrorCharacteristicsNotFound then "DFU CHARACTERISTICS NOT FOUND"
    else if error == ErrorFileTypeUnsupported then "DFU FILE TYPE NOT SUPPORTED"
    else if error == ErrorBluetoothDisabled then "BLUETOOTH ADAPTER DISABLED"
    else if HasBit(error, 13) && error - ErrorRemoteMask == DfuStatusInvalidState then "REMOTE DFU INVALID STATE"
    else if HasBit(error, 13) && error - ErrorRemoteMask == DfuStatusNotSupported then "REMOTE DFU NOT SUPPORTED"
    else if HasBit(error, 13) && error - ErrorRemoteMask == DfuStatusDataSizeExceedsLimit then "REMOTE DFU DATA SIZE EXCEEDS LIMIT"
    else if HasBit(error, 13) && error - ErrorRemoteMask == DfuStatusCrcError then "REMOTE DFU INVALID CRC ERROR"
    else if HasBit(error, 13) && error - ErrorRemoteMask == DfuStatusOperationFailed then "REMOTE DFU OPERATION FAILED"
    else Unknown(error)
  }

  // ---------------------------------------------------------------------
  // Decoders: from a name back to the number it was produced from

  /** The number a text `Unknown` wrote, if it is one. */
  function UnknownCode(name: string): Option<Int32>
  {
    if IsUnknown(name) then
      match DecimalValue(name[|UnknownPrefix|..|name| - 1])
      case Some(v) => if Int32Min <= v <= Int32Max then Some(v as Int32) else None
      case None => None
    else None
  }

  lemma UnknownRoundTrip(error: Int32)
    ensures IsUnknown(Unknown(error))
    ensures UnknownCode(Unknown(error)) == Some(error)
  {
    var name := Unknown(error);
    DecimalAlphabet(error);
    assert name[..|UnknownPrefix|] == UnknownPrefix;
    assert name[|UnknownPrefix|..|name| - 1] == Decimal(error);
    DecimalRoundTrip(error);
  }

  /** Inverse of `ParseConnectionError`. */
  function ConnectionErrorCode(name: string): Option<Int32>
  {
    if IsUnknown(name) then UnknownCode(name)
    else if name == "SUCCESS" then Some(0)
    else if name == "GATT CONN L2C FAILURE" then Some(0x01)
    else if name == "GATT CONN TIMEOUT" then Some(0x08)
    else if name == "GATT CONN TERMINATE PEER USER" then Some(0x13)
    else if name == "GATT CONN TERMINATE LOCAL HOST" then Some(0x16)
    else if name == "GATT CONN FAIL ESTABLISH" then Some(0x3E)
    else if name == "GATT CONN LMP TIMEOUT" then Some(0x22)
    else if name == "GATT CONN CANCEL " then Some(0x0100)
    else if name == "GATT ERROR" then Some(0x0085)
    else None
  }

  /** Every status reported with a connection-state change can be read back from its name. */
  lemma ParseConnectionErrorRoundTrip(error: Int32)
    ensures ConnectionErrorCode(ParseConnectionError(error)) == Some(error)
  {
    if error in ConnectionErrorCodes {
      ConnectionNamesDecode(error);
    } else {
      assert ParseConnectionError(error) == Unknown(error);
      UnknownNotConnectionName(error);
    }
  }

  lemma UnknownNotConnectionName(error: Int32)
    ensures ConnectionErrorCode(Unknown(error)) == Some(error)
  {
    UnknownRoundTrip(error);
  }

  lemma ConnectionNamesDecode(error: Int32)
    requires error in ConnectionErrorCodes
    ensures !IsUnknown(ParseConnectionError(error))
    ensures ConnectionErrorCode(ParseConnectionError(error)) == Some(error)
  {
    if error <= 0x16 {
      ConnectionNamesDecodeLow(error);
    } else {
      ConnectionNamesDecodeHigh(error);
    }
  }

  lemma ConnectionNamesDecodeLow(error: Int32)
    requires error in {0, 0x01, 0x08, 0x13, 0x16}
    ensures !IsUnknown(ParseConnectionError(error))
    ensures ConnectionErrorCode(ParseConnectionError(error)) == Some(error)
  {
  }

  lemma ConnectionNamesDecodeHigh(error: Int32)
    requires error in {0x3E, 0x22, 0x0100, 0x0085}
    ensures !IsUnknown(ParseConnectionError(error))
    ensures ConnectionErrorCode(ParseConnectionError(error)) == Some(error)
  {
  }

  /** The ints `ParseConnectionError` names. */
  lemma ParseConnectionErrorNamesExactly(error: Int32)
    ensures IsUnknown(ParseConnectionError(error)) <==> error !in ConnectionErrorCodes
    ensures error !in ConnectionErrorCodes ==> ParseConnectionError(error) == Unknown(error)
  {
    if error in ConnectionErrorCodes {
      ConnectionNamesDecode(error);
    } else {
      ConnectionUnknown(error);
      UnknownRoundTrip(error);
    }
  }

  lemma ConnectionUnknown(error: Int32)
    requires error !in ConnectionErrorCodes
    ensures ParseConnectionError(error) == Unknown(error)
  {
  }

  /** Distinct statuses get distinct names from `ParseConnectionError`. */
  lemma ParseConnectionErrorInjective(a: Int32, b: Int32)
    requires ParseConnectionError(a) == ParseConnectionError(b)
    ensures a == b
  {
    ParseConnectionErrorRoundTrip(a);
    ParseConnectionErrorRoundTrip(b);
  }

  // ---------------------------------------------------------------------
  // What Parse names

  /** The remote DFU errors `Parse` names: bit 13 set and a failure status 2..6 once it is cleared. */
  predicate IsRemoteNamed(error: Int32)
  {
    HasBit(error, 13) && DfuStatusInvalidState <= error - ErrorRemoteMask <= DfuStatusOperationFailed
  }

  /** The ints `Parse` has a name for. */
  predicate IsNamed(error: Int32)
  {
    error in GattCodes || error in NamedLocalErrors || IsRemoteNamed(error)
  }

  /** Only ErrorRemoteMask | 2 .. ErrorRemoteMask | 6 are named remote errors. */
  lemma RemoteNamedRange(error: Int32)
    ensures IsRemoteNamed(error) <==> 0x2002 <= error <= 0x2006
  {
    Pow2Values();
  }

  /**
   * For a non-negative status the test `(ErrorRemoteMask & error) > 0` is the
   * bit test `Parse` applies.
   */
  lemma RemoteBitTest(error: nat)
    ensures BitAnd(ErrorRemoteMask, error) > 0 <==> HasBit(error, 13)
  {
    Pow2Values();
    AndSingleBit(13, error);
  }

  /**
   * For a status with bit 13 set, `error - ErrorRemoteMask` is
   * `error & ~ErrorRemoteMask`: the bits below 13 and above 13 are kept and
   * bit 13 is cleared.
   */
  lemma RemoteMaskCleared(error: Int32)
    requires HasBit(error, 13)
    ensures (error - ErrorRemoteMask) % 0x2000 == error % 0x2000
    ensures (error - ErrorRemoteMask) / 0x2000 / 2 == error / 0x2000 / 2
    ensures !HasBit(error - ErrorRemoteMask, 13)
  {
    Pow2Values();
    ClearBit(error, 13);
  }

  /** A negative status is never named by `Parse`: it gets the default text. */
  lemma ParseNegative(error: Int32)
    requires error < 0
    ensures Parse(error) == Unknown(error)
  {
    ParseNamesExactly(error);
    RemoteNamedRange(error);
  }

  /**
   * `Parse` names exactly the listed GATT codes, the local DFU errors other
   * than ErrorInvalidResponse, and the remote DFU failures 2..6; every other
   * int gets `Unknown`, whose number can be read back from it.
   */
  lemma ParseNamesExactly(error: Int32)
    ensures IsUnknown(Parse(error)) <==> !IsNamed(error)
    ensures !IsNamed(error) ==> Parse(error) == Unknown(error) && UnknownCode(Parse(error)) == Some(error)
  {
    LocalErrorValues();
    RemoteNamedRange(error);
    if 0x01 <= error <= 0x11 {
      GattNamedLow(error);
    } else if 0x80 <= error <= 0x8e {
      GattNamedHigh(error);
    } else if error in {0xFF, 0x0101, 0x01FF} {
      GattNamedOther(error);
    } else if error in NamedLocalErrors {
      LocalNamed(error);
    } else if IsRemoteNamed(error) {
      RemoteNamed(error);
    } else {
      assert !IsNamed(error);
      assert Parse(error) == Unknown(error);
      UnknownRoundTrip(error);
    }
  }

  lemma GattNamedLow(error: Int32)
    requires 0x01 <= error <= 0x11
    ensures error in GattCodes && !IsUnknown(Parse(error))
  {
  }

  lemma GattNamedHigh(error: Int32)
    requires 0x80 <= error <= 0x8e
    ensures error in GattCodes && !IsUnknown(Parse(error))
  {
  }

  lemma GattNamedOther(error: Int32)
    requires error in {0xFF, 0x0101, 0x01FF}
    ensures error in GattCodes && !IsUnknown(Parse(error))
  {
  }

  lemma LocalNamed(error: Int32)
    requires error in NamedLocalErrors
    ensures !IsUnknown(Parse(error))
  {
    LocalErrorValues();
    if error <= 0x1004 {
      LocalNamedLow(error);
    } else {
      LocalNamedHigh(error);
    }
  }

  lemma LocalNamedLow(error: Int32)
    requires 0x1000 <= error <= 0x1004
    ensures !IsUnknown(Parse(error))
  {
    LocalErrorValues();
  }

  lemma LocalNamedHigh(error: Int32)
    requires 0x1005 <= error <= 0x100A && error != 0x1008
    ensures !IsUnknown(Parse(error))
  {
    LocalErrorValues();
  }

  lemma RemoteNamed(error: Int32)
    requires IsRemoteNamed(error)
    ensures !IsUnknown(Parse(error))
  {
    LocalErrorValues();
    RemoteNamedRange(error);
  }

  // ---------------------------------------------------------------------
  // Particular codes

  /**
   * The same number means different things to the two decoders: status 8 is
   * a connection timeout when it comes with a connection-state change, and a
   * missing authorization when it comes from any other callback.
   */
  lemma SameNumberTwoMeanings()
    ensures ParseConnectionError(8) == "GATT CONN TIMEOUT"
    ensures Parse(8) == "GATT INSUF AUTHORIZATION"
    ensures ParseConnectionError(8) != Parse(8)
  {
  }

  /** GATT status 0xFF and the local ErrorServiceDiscoveryNotStarted are named differently. */
  lemma ServiceDiscoveryNames()
    ensures Parse(0x00FF) == "DFU SERVICE DISCOVERY NOT STARTED"
    ensures Parse(ErrorServiceDiscoveryNotStarted) == "DFU ERROR WHILE SERVICE DISCOVERY"
    ensures Parse(0x00FF) != Parse(ErrorServiceDiscoveryNotStarted)
  {
    LocalErrorValues();
  }

  /** ErrorInvalidResponse (ErrorMask | 0x08) has no case of its own. */
  lemma InvalidResponseUnnamed()
    ensures Parse(ErrorInvalidResponse) == "UNKNOWN (4104)"
  {
    LocalErrorValues();
    assert NatDecimal(4104) == "4104" by {
      assert NatDecimal(4) == "4";
      assert NatDecimal(41) == "41";
      assert NatDecimal(410) == "410";
    }
  }

  /** A failure status the target returned, tagged with ErrorRemoteMask, decodes to its REMOTE DFU name. */
  lemma RemoteFailureNames(status: Int32)
    requires DfuStatusInvalidState <= status <= DfuStatusOperationFailed
    ensures status == DfuStatusInvalidState ==> Parse(BitOr(ErrorRemoteMask, status)) == "REMOTE DFU INVALID STATE"
    ensures status == DfuStatusNotSupported ==> Parse(BitOr(ErrorRemoteMask, status)) == "REMOTE DFU NOT SUPPORTED"
    ensures status == DfuStatusDataSizeExceedsLimit ==> Parse(BitOr(ErrorRemoteMask, status)) == "REMOTE DFU DATA SIZE EXCEEDS LIMIT"
    ensures status == DfuStatusCrcError ==> Parse(BitOr(ErrorRemoteMask, status)) == "REMOTE DFU INVALID CRC ERROR"
    ensures status == DfuStatusOperationFailed ==> Parse(BitOr(ErrorRemoteMask, status)) == "REMOTE DFU OPERATION FAILED"
  {
    Pow2Values();
    OrHighBit(13, status);
    RemoteNamedRange(ErrorRemoteMask + status);
    LocalErrorValues();
  }

  /**
   * Only bit 13 is cleared before the status is matched: a remote Success and
   * a remote status that carries another mask bit as well both fall through
   * to `Unknown`.
   */
  lemma RemoteUnmatched()
    ensures Parse(BitOr(ErrorRemoteMask, DfuStatusSuccess)) == Unknown(0x2001)
    ensures Parse(0x6002) == Unknown(0x6002)
  {
    Pow2Values();
    OrHighBit(13, DfuStatusSuccess);
    LocalErrorValues();
    ParseNamesExactly(0x2001);
    ParseNamesExactly(0x6002);
  }
}
