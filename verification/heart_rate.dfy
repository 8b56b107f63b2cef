/**
 * The heart-rate panel: each notification of the Heart Rate Measurement
 * characteristic (Bluetooth Heart Rate Service 1.0, section 3.1) carries a flags
 * byte followed by the heart-rate value, which is a UINT8 when flags bit 0 is
 * clear and a little-endian UINT16 when it is set. Fields after the value
 * (energy expended, RR intervals) are not read.
 */
module HeartRate {
  import opened Wrappers

  /** An octet of the notification's `DataView`. */
  newtype Byte = b: int | 0 <= b < 0x100

  /** Reading a byte past the end of the notification's buffer raises a range error. */
  datatype DecodeError = OutOfRange

  /** `flags & 0x01`: the value field is 16 bits wide. */
  predicate WideValue(flags: Byte) {
    (flags as bv8) & 0x01 != 0
  }

  /** `getUint16(offset, true)`: the low byte first. Both bytes can be read back from the value. */
  function LittleEndian16(lo: Byte, hi: Byte): (v: nat)
    ensures v < 0x1_0000
    ensures v % 0x100 == lo as nat && v / 0x100 == hi as nat
  {
    lo as nat + 0x100 * hi as nat
  }

  /** The heart rate in beats per minute carried by one notification. */
  function DecodeHeartRate(buffer: seq<Byte>): (r: Result<nat, DecodeError>)
    ensures r.Success? <==> |buffer| >= 2 && (WideValue(buffer[0]) ==> |buffer| >= 3)
    ensures r.Success? && !WideValue(buffer[0]) ==> r.value < 0x100 && r.value == buffer[1] as nat
    ensures r.Success? && WideValue(buffer[0]) ==> r.value == buffer[1] as nat + 0x100 * buffer[2] as nat
    ensures r.Success? ==> r.value < 0x1_0000
  {
    if |buffer| < 1 then Failure(OutOfRange)
    else if WideValue(buffer[0]) then
      if |buffer| < 3 then Failure(OutOfRange) else Success(LittleEndian16(buffer[1], buffer[2]))
    else
      if |buffer| < 2 then Failure(OutOfRange) else Success(buffer[1] as nat)
  }

  /** The sensor's side: a notification with the given flags, value and trailing fields. */
  function EncodeMeasurement(flags: Byte, bpm: nat, trailing: seq<Byte>): (buffer: seq<Byte>)
    requires bpm < (if WideValue(flags) then 0x1_0000 else 0x100)
    ensures |buffer| == (if WideValue(flags) then 3 else 2) + |trailing|
  {
    var field := if WideValue(flags) then [(bpm % 0x100) as Byte, (bpm / 0x100) as Byte] else [bpm as Byte];
    [flags] + field + trailing
  }

  /** Decoding gives back the encoded value, whatever follows the value field. */
  lemma DecodeEncode(flags: Byte, bpm: nat, trailing: seq<Byte>)
    requires bpm < (if WideValue(flags) then 0x1_0000 else 0x100)
    ensures DecodeHeartRate(EncodeMeasurement(flags, bpm, trailing)) == Success(bpm)
  {
    var buffer := EncodeMeasurement(flags, bpm, trailing);
    assert buffer[0] == flags;
    if WideValue(flags) {
      assert LittleEndian16(buffer[1], buffer[2]) == bpm % 0x100 + 0x100 * (bpm / 0x100);
    }
  }

  /**
   * Every decodable notification is the encoding of its value: the flags byte, the
   * value field of the width bit 0 selects, and whatever follows.
   */
  lemma EncodeDecode(buffer: seq<Byte>)
    requires DecodeHeartRate(buffer).Success?
    ensures var width := if WideValue(buffer[0]) then 2 else 1;
      EncodeMeasurement(buffer[0], DecodeHeartRate(buffer).value, buffer[1 + width..]) == buffer
  {
    var bpm := DecodeHeartRate(buffer).value;
    if WideValue(buffer[0]) {
      assert bpm % 0x100 == buffer[1] as nat && bpm / 0x100 == buffer[2] as nat;
      assert buffer == [buffer[0]] + [buffer[1], buffer[2]] + buffer[3..];
    } else {
      assert buffer == [buffer[0]] + [buffer[1]] + buffer[2..];
    }
  }

  /** Only bit 0 of the flags byte is read. */
  lemma OnlyBitZeroMatters(buffer: seq<Byte>, flags: Byte)
    requires |buffer| >= 1
    requires (flags as bv8) & 0x01 == (buffer[0] as bv8) & 0x01
    ensures DecodeHeartRate([flags] + buffer[1..]) == DecodeHeartRate(buffer)
  {
    var other := [flags] + buffer[1..];
    assert other[1..] == buffer[1..];
  }

  /** Bytes after the value field never change the decoded value. */
  lemma TrailingBytesIgnored(buffer: seq<Byte>, extra: seq<Byte>)
    requires DecodeHeartRate(buffer).Success?
    ensures DecodeHeartRate(buffer + extra) == DecodeHeartRate(buffer)
  {
    var longer := buffer + extra;
    assert longer[0] == buffer[0] && longer[1] == buffer[1];
    if WideValue(buffer[0]) {
      assert longer[2] == buffer[2];
    }
  }

  /** What the panel holds: the last heart rate shown and the values handed to `onHr`, in order. */
  datatype Panel = Panel(shown: Option<nat>, reported: seq<nat>)

  /**
   * One notification: a decoded value goes unchanged both to the display and to the
   * callback; a notification too short to decode raises inside the listener and changes nothing.
   */
  function Notify(panel: Panel, buffer: seq<Byte>): (next: Panel)
    ensures DecodeHeartRate(buffer).Success? ==>
      next.shown == Some(DecodeHeartRate(buffer).value) && next.reported == panel.reported + [next.shown.value]
    ensures DecodeHeartRate(buffer).Failure? ==> next == panel
  {
    match DecodeHeartRate(buffer)
    case Success(bpm) => Panel(Some(bpm), panel.reported + [bpm])
    case Failure(_) => panel
  }

  /** The panel's text: a rate with its unit, or a dash. */
  datatype Display = Bpm(rate: nat) | Dash

  /** `hr ? `${hr} bpm` : '—'`: a rate of 0 is falsy, so it shows as a dash like no rate at all. */
  function DisplayOf(shown: Option<nat>): (d: Display)
    ensures d.Bpm? <==> shown.Some? && shown.value != 0
    ensures d.Bpm? ==> d.rate == shown.value
  {
    match shown
    case Some(rate) => if rate != 0 then Bpm(rate) else Dash
    case None => Dash
  }
}
