/**
 * The exception the DFU service raises when the target's response is not the
 * one expected, and its helper that writes raw bytes as upper-case hex.
 */
module UnknownResponse {
  import opened CSharp

  const HexArray: string := "0123456789ABCDEF"

  /** What a call of `BytesToHex` ends in: a string, or one of two runtime exceptions. */
  datatype HexOutcome = Returned(text: string) | IndexOutOfRange | Overflow

  type Nibble = x: int | 0 <= x < 16

  /** The upper-case hex digit of `n`: '0'..'9', then 'A'..'F'. */
  function HexDigit(n: Nibble): char
  {
    if n < 10 then ('0' as int + n) as char else ('A' as int + n - 10) as char
  }

  /** The digit of the high nibble of `x`. */
  function HighDigit(x: Byte): char
  {
    HexDigit(x / 16)
  }

  /** The digit of the low nibble of `x`. */
  function LowDigit(x: Byte): char
  {
    HexDigit(x % 16)
  }

  /** The lookup table holds, at index n, the hex digit of n. */
  lemma HexArrayDigit(n: Nibble)
    ensures HexArray[n] == HexDigit(n)
  {
  }

  /** The table entries the loop reads for a byte are its high and low digits. */
  lemma HexArrayNibbles(x: Byte)
    ensures HexArray[x / 16] == HighDigit(x) && HexArray[x % 16] == LowDigit(x)
  {
    HexArrayDigit(x / 16);
    HexArrayDigit(x % 16);
  }

  /** A text that holds the two digits of w[i] at 2i and 2i + 1 is the hex text of `w`. */
  lemma {:induction false} DigitsFillHex(h: string, w: seq<Byte>)
    requires |h| == 2 * |w|
    requires forall i :: 0 <= i < |w| ==> h[2 * i] == HighDigit(w[i]) && h[2 * i + 1] == LowDigit(w[i])
    ensures h == HexDigits(w)
  {
    if w != [] {
      forall i | 0 <= i < |w| - 1
        ensures h[2..][2 * i] == HighDigit(w[1..][i]) && h[2..][2 * i + 1] == LowDigit(w[1..][i])
      {
        assert h[2 * (i + 1)] == HighDigit(w[i + 1]);
        assert h[2 * (i + 1) + 1] == LowDigit(w[i + 1]);
      }
      DigitsFillHex(h[2..], w[1..]);
      assert h[0] == HighDigit(w[0]) && h[1] == LowDigit(w[0]);
      assert h == [h[0], h[1]] + h[2..];
    }
  }

  /** The hex text of `w`, two digits per byte. */
  function HexDigits(w: seq<Byte>): (r: string)
    ensures |r| == 2 * |w|
  {
    if w == [] then [] else [HighDigit(w[0]), LowDigit(w[0])] + HexDigits(w[1..])
  }

  /**
   * What `BytesToHex(bytes, start, length)` does, with C#'s 32-bit arithmetic
   * written out: `bytes.Length - start` and `maxLength * 2` wrap around; a
   * negative array size throws OverflowException; reading `bytes[start + j]`
   * below index 0 throws IndexOutOfRangeException. A fresh `char[]` holds
   * NUL characters until they are overwritten.
   */
  function HexOf(bytes: Option<seq<Byte>>, start: Int32, length: Int32): HexOutcome
    requires bytes.Some? ==> |bytes.value| <= Int32Max
  {
    if bytes.None? || |bytes.value| <= start || length <= 0 then Returned("")
    else
      var b := bytes.value;
      var maxLength := Min(length, Wrap32(|b| - start));
      var size := Wrap32(maxLength * 2);
      if size < 0 then Overflow
      else if maxLength <= 0 then Returned("0x" + seq(size, _ => '\0'))
      else if start < 0 then IndexOutOfRange
      else Returned("0x" + HexDigits(b[start..start + maxLength]))
  }

  /** `BytesToHex`: the loop that fills a `char[]` two digits at a time. */
  method BytesToHex(bytes: array?<Byte>, start: Int32, length: Int32) returns (r: HexOutcome)
    requires bytes != null ==> bytes.Length <= Int32Max
    ensures r == HexOf(if bytes == null then None else Some(bytes[..]), start, length)
  {
    if bytes == null || bytes.Length <= start || length <= 0 {
      return Returned("");
    }
    ghost var b := bytes[..];
    var maxLength: Int32 := Min(length, Wrap32(bytes.Length - start));
    var size := Wrap32(maxLength * 2);
    if size < 0 {
      assert HexOf(Some(b), start, length) == Overflow;
      return Overflow;
    }
    var hexChars := new char[size](_ => '\0');
    ghost var w: seq<Byte> := if 0 <= start && 0 < maxLength then b[start..start + maxLength] else [];
    assert 0 <= start && 0 < maxLength ==> maxLength == Min(length, |b| - start) && size == 2 * maxLength;
    var j: Int32 := 0;
    while j < maxLength
      invariant 0 <= j <= |w|
      invariant j == 0 ==> forall k :: 0 <= k < size ==> hexChars[k] == '\0'
      invariant forall i :: 0 <= i < j ==> hexChars[2 * i] == HighDigit(w[i]) && hexChars[2 * i + 1] == LowDigit(w[i])
    {
      if start + j < 0 {
        HexOfNegativeStart(b, start, length);
        return IndexOutOfRange;
      }
      var v := bytes[start + j];
      assert w[j] == v;
      HexArrayNibbles(v);
      hexChars[2 * j] := HexArray[v / 16];
      hexChars[2 * j + 1] := HexArray[v % 16];
      j := j + 1;
    }
    assert bytes[..] == b;
    HexOfFilled(b, start, length, maxLength, w, hexChars[..]);
    return Returned("0x" + hexChars[..]);
  }

  // ---------------------------------------------------------------------
  // Reading the hex text back

  /** The value of an upper-case hex digit. */
  function NibbleValue(c: char): Option<Nibble>
  {
    if '0' <= c <= '9' then Some(c as int - '0' as int)
    else if 'A' <= c <= 'F' then Some(c as int - 'A' as int + 10)
    else None
  }

  /** The bytes a hex text spells, two digits each, high nibble first. */
  function DecodeHex(t: string): Option<seq<Byte>>
  {
    if |t| == 0 then Some([])
    else if |t| == 1 then None
    else
      var hi, lo, rest := NibbleValue(t[0]), NibbleValue(t[1]), DecodeHex(t[2..]);
      if hi.Some? && lo.Some? && rest.Some? then Some([hi.value * 16 + lo.value] + rest.value) else None
  }

  lemma NibbleOfDigit(n: Nibble)
    ensures NibbleValue(HexDigit(n)) == Some(n)
  {
  }

  // ---------------------------------------------------------------------
  // Properties

  /** Byte j's two digits sit at 2j and 2j + 1 of the hex text. */
  lemma {:induction false} HexDigitsPair(w: seq<Byte>, j: nat)
    requires j < |w|
    ensures HexDigits(w)[2 * j] == HighDigit(w[j]) && HexDigits(w)[2 * j + 1] == LowDigit(w[j])
  {
    if j > 0 {
      HexDigitsPair(w[1..], j - 1);
      assert w[1..][j - 1] == w[j];
    }
  }

  /** The same, for every byte at once. */
  lemma HexDigitsPairs(w: seq<Byte>)
    ensures forall j :: 0 <= j < |w| ==>
      HexDigits(w)[2 * j] == HighDigit(w[j]) && HexDigits(w)[2 * j + 1] == LowDigit(w[j])
  {
    forall j | 0 <= j < |w|
      ensures HexDigits(w)[2 * j] == HighDigit(w[j]) && HexDigits(w)[2 * j + 1] == LowDigit(w[j])
    {
      HexDigitsPair(w, j);
    }
  }

  /** Every character of the hex text is one of the sixteen upper-case digits. */
  lemma {:induction false} HexDigitsAlphabet(w: seq<Byte>)
    ensures forall k :: 0 <= k < |HexDigits(w)| ==> HexDigits(w)[k] in HexArray
  {
    if w != [] {
      HexDigitsAlphabet(w[1..]);
      HexArrayDigit(w[0] / 16);
      HexArrayDigit(w[0] % 16);
      var t := HexDigits(w);
      assert t == [HexArray[w[0] / 16], HexArray[w[0] % 16]] + HexDigits(w[1..]);
    }
  }

  /** Decoding the hex text gives back the bytes. */
  lemma {:induction false} HexDigitsRoundTrip(w: seq<Byte>)
    ensures DecodeHex(HexDigits(w)) == Some(w)
  {
    if w != [] {
      var t := HexDigits(w);
      var hi, lo := w[0] / 16, w[0] % 16;
      assert t[0] == HexDigit(hi) && t[1] == HexDigit(lo);
      NibbleOfDigit(hi);
      NibbleOfDigit(lo);
      assert t[2..] == HexDigits(w[1..]);
      HexDigitsRoundTrip(w[1..]);
      assert [hi * 16 + lo] + w[1..] == w;
    }
  }

  /** With no array, a start at or past its end, or a non-positive length, the text is empty. */
  lemma HexOfEmpty(bytes: Option<seq<Byte>>, start: Int32, length: Int32)
    requires bytes.Some? ==> |bytes.value| <= Int32Max
    requires bytes.None? || |bytes.value| <= start || length <= 0
    ensures HexOf(bytes, start, length) == Returned("")
  {
  }

  /** Within range, the text is "0x" and the hex digits of the min(length, |b| - start) bytes from `start` on. */
  lemma HexOfWindow(b: seq<Byte>, start: Int32, length: Int32)
    requires |b| <= Int32Max && 0 <= start < |b| && 0 < length
    requires Min(length, |b| - start) < 0x4000_0000
    ensures HexOf(Some(b), start, length) == Returned("0x" + HexDigits(b[start..start + Min(length, |b| - start)]))
  {
    var n := Min(length, |b| - start);
    assert Wrap32(|b| - start) == |b| - start;
    assert Wrap32(n * 2) == 2 * n;
  }

  /** The text "0x" + HexDigits(w): its length, its prefix, its digits, and the bytes it decodes to. */
  lemma HexText(w: seq<Byte>)
    ensures var t := "0x" + HexDigits(w);
      && |t| == 2 + 2 * |w|
      && t[..2] == "0x"
      && (forall j :: 0 <= j < |w| ==> t[2 + 2 * j] == HighDigit(w[j]) && t[3 + 2 * j] == LowDigit(w[j]))
      && DecodeHex(t[2..]) == Some(w)
  {
    var t := "0x" + HexDigits(w);
    HexDigitsPairs(w);
    assert t[2..] == HexDigits(w);
    HexDigitsRoundTrip(w);
  }

  /** A length past the end of the array is clamped to what remains. */
  lemma HexOfClamped(b: seq<Byte>, start: Int32, length: Int32)
    requires |b| <= Int32Max && 0 <= start < |b| && length >= |b| - start
    ensures HexOf(Some(b), start, length) == HexOf(Some(b), start, |b| - start)
  {
  }

  /** Only b[start .. start + maxLength] is read: arrays that agree there give the same outcome. */
  lemma HexOfReadsWindow(b1: seq<Byte>, b2: seq<Byte>, start: Int32, length: Int32)
    requires |b1| == |b2| <= Int32Max && 0 <= start < |b1| && 0 < length
    requires forall i :: start <= i < start + Min(length, |b1| - start) ==> b1[i] == b2[i]
    ensures HexOf(Some(b1), start, length) == HexOf(Some(b2), start, length)
  {
    var n := Min(length, |b1| - start);
    assert b1[start..start + n] == b2[start..start + n];
  }

  /**
   * The text `BytesToHex` returns once the loop has run to its end: the window
   * `w` of `b` in hex, or only the NUL characters of the fresh array when
   * `maxLength` is not positive.
   */
  lemma HexOfFilled(b: seq<Byte>, start: Int32, length: Int32, maxLength: int, w: seq<Byte>, h: string)
    requires |b| <= Int32Max && start < |b| && 0 < length
    requires maxLength == Min(length, Wrap32(|b| - start)) && 0 <= Wrap32(maxLength * 2) == |h|
    requires maxLength <= 0 ==> forall k :: 0 <= k < |h| ==> h[k] == '\0'
    requires 0 < maxLength ==> 0 <= start && w == b[start..start + maxLength] && |h| == 2 * |w|
    requires forall i :: 0 <= i < |w| && 2 * i + 1 < |h| ==>
      h[2 * i] == HighDigit(w[i]) && h[2 * i + 1] == LowDigit(w[i])
    ensures HexOf(Some(b), start, length) == Returned("0x" + h)
  {
    if 0 < maxLength {
      assert maxLength == Min(length, |b| - start);
      DigitsFillHex(h, w);
      HexOfWindow(b, start, length);
    } else {
      assert h == seq(|h|, _ => '\0');
      HexOfNoDigits(b, start, length);
    }
  }

  /** When `maxLength` is not positive and the array size is not negative, the loop does not run. */
  lemma HexOfNoDigits(b: seq<Byte>, start: Int32, length: Int32)
    requires |b| <= Int32Max && start < |b| && 0 < length
    requires Min(length, Wrap32(|b| - start)) <= 0 && 0 <= Wrap32(Min(length, Wrap32(|b| - start)) * 2)
    ensures HexOf(Some(b), start, length)
      == Returned("0x" + seq(Wrap32(Min(length, Wrap32(|b| - start)) * 2), _ => '\0'))
  {
  }

  /** A negative start passes the guard, and the first read of `bytes[start]` throws. */
  lemma HexOfNegativeStart(b: seq<Byte>, start: Int32, length: Int32)
    requires |b| <= Int32Max && start < 0 && 0 < length
    requires 0 < Min(length, Wrap32(|b| - start)) && 0 <= Wrap32(Min(length, Wrap32(|b| - start)) * 2)
    ensures HexOf(Some(b), start, length) == IndexOutOfRange
  {
  }

  /**
   * A start so negative that `bytes.Length - start` wraps around makes
   * `maxLength` negative; `maxLength * 2` wraps again to a small array size,
   * the loop does not run, and the NUL characters of the fresh array are
   * returned.
   */
  lemma HexOfWrappedStart(b: seq<Byte>)
    requires |b| == 5
    ensures HexOf(Some(b), Int32Min, 100) == Returned("0x" + seq(10, _ => '\0'))
  {
  }

  /**
   * The exception's state: the message given to the base exception, the raw
   * response (the caller's own array, or a fresh empty one for null) and the
   * op-code that was expected.
   */
  class UnknownResponseException {
    const message: string
    const response: array<Byte>
    const expectedOpCode: Int32

    constructor (message: string, response: array?<Byte>, expectedOpCode: Int32)
      ensures this.message == message
      ensures response != null ==> this.response == response
      ensures response == null ==> fresh(this.response) && this.response.Length == 0
      ensures this.expectedOpCode == expectedOpCode
    {
      this.message := message;
      if response != null {
        this.response := response;
      } else {
        this.response := new Byte[0];
      }
      this.expectedOpCode := expectedOpCode;
    }
  }
}
