# Nordic legacy DFU service: constants, error names and the hex helper

This project models the part of the Xamarin port of Nordic Semiconductor's
legacy Device Firmware Update (DFU) library that carries the service's
vocabulary. It proves properties of that model.

- **`DfuBaseService.dfy`** models the constant table of `DfuBaseService`:
  - file types, progress markers, error types and the error codes;
  - the four category masks, pause/resume/abort actions and DFU status values;
  - control-point op-codes and their fixed command packets;
  - the maximum packet size and the connection-state codes.

  The class `Service` holds the instance fields that the source initialises.
  Its constructor gives them their initial values: a zeroed 20-byte packet buffer, a packet-receipt-notification interval of 10, and defaults for everything else.
- **`GattError.dfy`** models the two decoders.
  - `ParseConnectionError` names the status that comes with a connection-state change.
  - `Parse` names every other GATT status, the service's own local error codes, and remote DFU errors. A remote DFU error is the status the target returned with `ErrorRemoteMask` set.
  - An unlisted number becomes `"UNKNOWN (" + error + ")"`.
  - The decoder `ConnectionErrorCode` inverts `ParseConnectionError`, which gives injectivity.
  - `UnknownCode` reads the number back from an `UNKNOWN (...)` text.
  - The lemmas state exactly which numbers each decoder names.
- **`UnknownResponseException.dfy`** models the exception raised on an unexpected response.
  - Its constructor replaces a null response with an empty array.
  - `BytesToHex` is a method with the source's loop over a fresh `char` array.
  - It is proved against the specification function `HexOf`. `HexOf` spells out C#'s unchecked 32-bit arithmetic:
    - `bytes.Length - start` and `maxLength * 2` wrap around;
    - a negative array size throws `OverflowException`;
    - a negative `start` passes the guard, and the first read throws `IndexOutOfRangeException`.
  - Both exceptions are values of `HexOutcome`.
  - Lemmas about `HexOf` and `HexDigits` give:
    - the window of bytes that is read;
    - the clamping of the length;
    - the digit layout;
    - a decoder that recovers the bytes from the text.
- **`CSharp.dfy`** holds the C# primitives this needs:
  - the `int` and `byte` ranges;
  - unchecked wrap-around;
  - `|` and `&` on non-negative ints;
  - the bit test used for `&` with a single-bit mask;
  - the decimal text of an `int`, with a parser that inverts it.

`switch` statements and `if` chains become `if`/`else if` chains in the same order.
`case` labels that name `static readonly` fields are taken at those fields' values.

## Model

| member | source | states |
|---|---|---|
| CSharp.Wrap32 | DFU-Library/No/NordicSemi/Droid/DFU/Exception/UnknownResponseException.cs:54-55 | an unchecked `int` result equals the exact value when it fits and is moved by 2^32 otherwise, for the range one subtraction or doubling of two ints reaches |
| CSharp.DecimalRoundTrip | DFU-Library/No/NordicSemi/Droid/Error/GattError.cs:61-62 | the decimal text a number is concatenated as parses back to that number, negative numbers included |
| CSharp.DecimalInjective | DFU-Library/No/NordicSemi/Droid/Error/GattError.cs:181 | two ints with the same decimal text are equal |
| CSharp.DecimalAlphabet | DFU-Library/No/NordicSemi/Droid/Error/GattError.cs:181 | the decimal text is non-empty and holds only digits, except a '-' at index 0; it starts with '-' if and only if the number is negative |
| CSharp.Decimal | DFU-Library/No/NordicSemi/Droid/Error/GattError.cs:62 | `int.ToString()` as string concatenation uses it: a minus sign for negatives, then the digits; its contract is carried by DecimalRoundTrip, DecimalInjective and DecimalAlphabet |
| CSharp.BitOr | DFU-Library/No/NordicSemi/Droid/DFU/DfuBaseService.cs:337-373 | `a OR b` on non-negative ints, bit by bit; the result is at least each operand and at most their sum; exact values in LocalErrorValues, RemoteFailureNames |
| CSharp.BitAnd | DFU-Library/No/NordicSemi/Droid/Error/GattError.cs:165 | `a & b` on non-negative ints, bit by bit; the result is at most each operand; exact values in ErrorMasksDisjoint, FileTypeBits, RemoteBitTest |
| CSharp.HasBit | DFU-Library/No/NordicSemi/Droid/Error/GattError.cs:165 | whether bit k of an int is set in two's complement (negative ints included); no contract of its own, tied to `&` by RemoteBitTest and to clearing the bit by RemoteMaskCleared |
| DfuBaseService.FileTypeBits | DFU-Library/No/NordicSemi/Droid/DFU/DfuBaseService.cs:168-212 | SoftDevice, Bootloader and Application are the single bits 1, 2, 4 and pairwise disjoint; Auto is the empty mask 0 |
| DfuBaseService.LocalErrorValues | DFU-Library/No/NordicSemi/Droid/DFU/DfuBaseService.cs:335-373 | each local error, ErrorMask OR k, is the number 0x1000 + k, for k = 0x00..0x0A |
| DfuBaseService.LocalErrorCodes | DFU-Library/No/NordicSemi/Droid/DFU/DfuBaseService.cs:335-377 | the eleven local errors are distinct, the k-th is ErrorMask + k, and all lie between ErrorMask and ErrorRemoteMask |
| DfuBaseService.ErrorMasksDisjoint | DFU-Library/No/NordicSemi/Droid/DFU/DfuBaseService.cs:335-386 | ErrorMask, ErrorRemoteMask, ErrorConnectionMask and ErrorConnectionStateMask are bits 12..15 and pairwise disjoint under `&` |
| DfuBaseService.ProgressBelowErrors | DFU-Library/No/NordicSemi/Droid/DFU/DfuBaseService.cs:232-335 | no percentage or progress marker passes the documented test `v >= ErrorMask`; every local error code, every mask, and every mask OR-ed with any non-negative status (such as ErrorConnectionMask OR 133) passes it; the markers are -1..-7 and distinct |
| DfuBaseService.DfuStatusRange | DFU-Library/No/NordicSemi/Droid/DFU/DfuBaseService.cs:454-459 | the DFU statuses are distinct, the k-th is k + 1, and a number is a status exactly when it is 1..6 |
| DfuBaseService.OpCodeTable | DFU-Library/No/NordicSemi/Droid/DFU/DfuBaseService.cs:461-479 | every command packet is non-empty and starts with its op-code, with its exact bytes; the outgoing op-codes are distinct; the response and notification codes are distinct and never outgoing |
| DfuBaseService.ConnectionStateCodes | DFU-Library/No/NordicSemi/Droid/DFU/DfuBaseService.cs:509-514 | the connection states are 0, -1..-5, distinct, and none is positive (a positive value is left for an error number) |
| DfuBaseService.Service.constructor | DFU-Library/No/NordicSemi/Droid/DFU/DfuBaseService.cs:495-596 | a fresh all-zero buffer of the maximum packet size; 10 packets before a notification; state Disconnected; every other counter, flag and file type at its default |
| GattError.ParseConnectionError | DFU-Library/No/NordicSemi/Droid/Error/GattError.cs:41-64 | the case table of connection-state statuses, in source order; no contract of its own: see ParseConnectionErrorRoundTrip, ParseConnectionErrorNamesExactly, ParseConnectionErrorInjective |
| GattError.Parse | DFU-Library/No/NordicSemi/Droid/Error/GattError.cs:72-183 | the case table of GATT statuses, local DFU errors and remote DFU errors, in source order; no contract of its own: see ParseNamesExactly, RemoteNamedRange, RemoteFailureNames, RemoteUnmatched, ParseNegative |
| GattError.Unknown | DFU-Library/No/NordicSemi/Droid/Error/GattError.cs:62 | the default text `"UNKNOWN (" + error + ")"`; no contract of its own: see UnknownRoundTrip |
| GattError.RemoteMaskCleared | DFU-Library/No/NordicSemi/Droid/Error/GattError.cs:167 | for a status with bit 13 set, `error - ErrorRemoteMask` keeps every bit below and above 13 and clears bit 13, so it is `error & ~ErrorRemoteMask`, negative statuses included |
| GattError.ParseNegative | DFU-Library/No/NordicSemi/Droid/Error/GattError.cs:72-183 | every negative status falls through to the default text |
| GattError.UnknownRoundTrip | DFU-Library/No/NordicSemi/Droid/Error/GattError.cs:61-62 | the default text has the `UNKNOWN (...)` shape and the number can be read back from it |
| GattError.ParseConnectionErrorRoundTrip | DFU-Library/No/NordicSemi/Droid/Error/GattError.cs:41-64 | `ConnectionErrorCode` recovers every status from its connection-state name |
| GattError.ParseConnectionErrorNamesExactly | DFU-Library/No/NordicSemi/Droid/Error/GattError.cs:41-64 | the name is an `UNKNOWN (...)` text if and only if the status is not one of the nine listed codes, and it is then the default text |
| GattError.ParseConnectionErrorInjective | DFU-Library/No/NordicSemi/Droid/Error/GattError.cs:41-64 | different statuses get different connection-state names |
| GattError.ParseNamesExactly | DFU-Library/No/NordicSemi/Droid/Error/GattError.cs:72-183 | `Parse` gives an `UNKNOWN (...)` text if and only if the number is not a listed GATT code, not a named local error and not a named remote error; such a text is the default text and gives the number back |
| GattError.RemoteNamedRange | DFU-Library/No/NordicSemi/Droid/Error/GattError.cs:164-179 | a number reaches a REMOTE DFU name exactly when it is 0x2002..0x2006 |
| GattError.RemoteBitTest | DFU-Library/No/NordicSemi/Droid/Error/GattError.cs:165 | for a non-negative number, `(ErrorRemoteMask & error) > 0` holds if and only if bit 13 is set |
| GattError.RemoteFailureNames | DFU-Library/No/NordicSemi/Droid/Error/GattError.cs:164-179 | ErrorRemoteMask OR s is named after the failure status s, for each s in 2..6 |
| GattError.RemoteUnmatched | DFU-Library/No/NordicSemi/Droid/Error/GattError.cs:164-181 | a remote Success (0x2001), and a remote status that has another mask bit as well (0x6002), fall through to the default text |
| GattError.SameNumberTwoMeanings | DFU-Library/No/NordicSemi/Droid/Error/GattError.cs:41-89 | status 8 is "GATT CONN TIMEOUT" for a connection-state change and "GATT INSUF AUTHORIZATION" for any other callback |
| GattError.ServiceDiscoveryNames | DFU-Library/No/NordicSemi/Droid/Error/GattError.cs:142-155 | GATT status 0xFF and the local ErrorServiceDiscoveryNotStarted get different names |
| GattError.InvalidResponseUnnamed | DFU-Library/No/NordicSemi/Droid/Error/GattError.cs:144-181 | ErrorInvalidResponse has no case of its own and is named "UNKNOWN (4104)" |
| UnknownResponse.HexOf | DFU-Library/No/NordicSemi/Droid/DFU/Exception/UnknownResponseException.cs:49-63 | the outcome of `BytesToHex` with C#'s unchecked arithmetic written out; no contract of its own: BytesToHex is proved equal to it, and HexOfEmpty, HexOfWindow, HexOfClamped, HexOfReadsWindow, HexOfNegativeStart and HexOfWrappedStart state what it gives |
| UnknownResponse.BytesToHex | DFU-Library/No/NordicSemi/Droid/DFU/Exception/UnknownResponseException.cs:49-63 | the loop's outcome (the returned text or the exception it throws) is `HexOf` of the array's contents, for every array, start and length |
| UnknownResponse.HexOfEmpty | DFU-Library/No/NordicSemi/Droid/DFU/Exception/UnknownResponseException.cs:51-52 | a null array, a start at or past the end, or a non-positive length gives the empty string |
| UnknownResponse.HexOfWindow | DFU-Library/No/NordicSemi/Droid/DFU/Exception/UnknownResponseException.cs:54-62 | within range the text is "0x" followed by the hex of the min(length, Length - start) bytes from `start` |
| UnknownResponse.HexText | DFU-Library/No/NordicSemi/Droid/DFU/Exception/UnknownResponseException.cs:56-62 | that text has length 2 + 2n, starts with "0x", holds byte j's high and low digits at 2 + 2j and 3 + 2j, and decodes back to the bytes |
| UnknownResponse.HexOfClamped | DFU-Library/No/NordicSemi/Droid/DFU/Exception/UnknownResponseException.cs:54 | a length past the end of the array gives the same outcome as the length that remains |
| UnknownResponse.HexOfReadsWindow | DFU-Library/No/NordicSemi/Droid/DFU/Exception/UnknownResponseException.cs:56-61 | arrays that agree on the window give the same outcome: nothing outside it is read |
| UnknownResponse.HexOfFilled | DFU-Library/No/NordicSemi/Droid/DFU/Exception/UnknownResponseException.cs:55-62 | a char array with byte i's two digits at 2i and 2i + 1 (or only NULs when nothing is read) is exactly what `HexOf` returns after "0x" |
| UnknownResponse.HexOfNegativeStart | DFU-Library/No/NordicSemi/Droid/DFU/Exception/UnknownResponseException.cs:51-58 | a negative start with a positive window passes the guard and ends in IndexOutOfRange |
| UnknownResponse.HexOfWrappedStart | DFU-Library/No/NordicSemi/Droid/DFU/Exception/UnknownResponseException.cs:54-55 | with start int.MinValue, length 100 and 5 bytes, both wrap-arounds happen and the result is "0x" followed by ten NUL characters |
| UnknownResponse.HexDigitsRoundTrip | DFU-Library/No/NordicSemi/Droid/DFU/Exception/UnknownResponseException.cs:56-61 | decoding the hex digits gives back the bytes |
| UnknownResponse.HexDigitsAlphabet | DFU-Library/No/NordicSemi/Droid/DFU/Exception/UnknownResponseException.cs:59-60 | every character of the hex digits is one of "0123456789ABCDEF" |
| UnknownResponse.HexDigitsPair | DFU-Library/No/NordicSemi/Droid/DFU/Exception/UnknownResponseException.cs:59-60 | byte j's high nibble digit is at 2j and its low nibble digit at 2j + 1 |
| UnknownResponse.HexArrayDigit | DFU-Library/No/NordicSemi/Droid/DFU/Exception/UnknownResponseException.cs:29 | table entry n is the upper-case hex digit of n |
| UnknownResponse.HexArrayNibbles | DFU-Library/No/NordicSemi/Droid/DFU/Exception/UnknownResponseException.cs:59-60 | the entries read for a byte, at `v >> 4` and `v & 0x0F`, are its high and low digits |
| UnknownResponse.UnknownResponseException.constructor | DFU-Library/No/NordicSemi/Droid/DFU/Exception/UnknownResponseException.cs:42-47 | keeps the message and the expected op-code; keeps the caller's response array, or a fresh empty one for null |

## Left out

- The `Message` property of `UnknownResponseException` is not modelled. It passes Java-style `%s`/`%02X` placeholders to .NET `String.Format`, so its text depends on .NET formatting rules that this model does not capture.
- The DFU protocol itself is not modelled. That covers `OnHandleIntent`, the GATT callback, the connection-state broadcast receiver, the upload loop, init-packet handling, notifications and logging. Only the constants and the initial field values are modelled.
- Concurrency is not modelled: the `_lock` object and waiting on it, and the threads that update the fields.
- Platform and I/O fields have no model: the Bluetooth adapter, input streams, device address and name, the notification manager, and the timing fields `_lastProgressTime` and `mStartTime`.
- The UUIDs, the broadcast and extra-key strings, log levels, the notification id, and the `_notifications`/`_indications` constants are omitted. They are opaque identifiers that no modelled operation uses.
- The second `_hexArray` in `DfuBaseService` (line 494) is not modelled. Nothing in the modelled core reads it, and it holds the same digits as the table in `UnknownResponseException`.
- UnknownResponse.BytesToHex: arrays longer than `int.MaxValue` are excluded by its precondition, because a C# array length is an `int`.
- UnknownResponse.BytesToHex: the byte `v` is already in 0..255. `(uint)v >> 4` and `v & 0x0F` are modelled as `v / 16` and `v % 16`.
- GattError.Parse: no injectivity lemma. The model states exactly which numbers `Parse` names and the round trip of the `UNKNOWN` text, but not that distinct named numbers get distinct names.
- CSharp.Decimal: it assumes `int.ToString()` writes plain ASCII digits with a leading '-', as it does under the invariant culture.
- GattError: the `case` labels that name `static readonly` fields are not compile-time constants in C#. The model uses the fields' values in the same order.
