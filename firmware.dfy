/**
 * The board's firmware: reading the sensor's 14-byte register block (from
 * ACCEL_XOUT_H on) into seven signed 16-bit readings, and classifying the
 * board's tilt and temperature for the serial console.
 */
module Firmware {
  import opened Wrappers

  type Byte = x: int | 0 <= x < 0x100
  type Int16 = x: int | -0x8000 <= x < 0x8000

  /**
   * `(hi << 8) | lo` on the promoted bytes: the shifted high byte and the
   * low byte share no bits, so the or is the sum.
   */
  function Word(hi: Byte, lo: Byte): (w: int)
    ensures 0 <= w < 0x1_0000
  {
    hi * 0x100 + lo
  }

  /** Storing a 16-bit value into an `int16_t`: two's complement. */
  function ToInt16(w: int): (r: Int16)
    requires 0 <= w < 0x1_0000
    ensures (r - w) % 0x1_0000 == 0
  {
    if w >= 0x8000 then w - 0x1_0000 else w
  }

  /** One reading, from its high and low register bytes. */
  function DecodeReading(hi: Byte, lo: Byte): Int16 {
    ToInt16(Word(hi, lo))
  }

  /** The register bytes that hold a reading: the partner of `DecodeReading`. */
  function EncodeReading(v: Int16): (Byte, Byte) {
    var w := if v < 0 then v + 0x1_0000 else v;
    (w / 0x100, w % 0x100)
  }

  /** A reading decodes to the value of its bytes, reduced to signed 16 bits. */
  lemma DecodeReadingValue(hi: Byte, lo: Byte)
    ensures var u := hi * 256 + lo;
      DecodeReading(hi, lo) == (if u >= 0x8000 then u - 0x1_0000 else u)
    ensures DecodeReading(hi, lo) < 0 <==> hi >= 0x80
  {
  }

  lemma DecodeEncode(v: Int16)
    ensures DecodeReading(EncodeReading(v).0, EncodeReading(v).1) == v
  {
    var (hi, lo) := EncodeReading(v);
    DecodeReadingValue(hi, lo);
  }

  lemma EncodeDecode(hi: Byte, lo: Byte)
    ensures EncodeReading(DecodeReading(hi, lo)) == (hi, lo)
  {
    DecodeReadingValue(hi, lo);
    var u := hi * 256 + lo;
    assert u / 256 == hi && u % 256 == lo;
  }

  /** The extremes: `FF FF` is -1, `80 00` the least and `7F FF` the greatest reading. */
  lemma DecodeExamples()
    ensures DecodeReading(0xFF, 0xFF) == -1
    ensures DecodeReading(0x80, 0x00) == -0x8000
    ensures DecodeReading(0x7F, 0xFF) == 0x7FFF
    ensures DecodeReading(0x00, 0x01) == 1
  {
    DecodeReadingValue(0xFF, 0xFF);
    DecodeReadingValue(0x80, 0x00);
    DecodeReadingValue(0x7F, 0xFF);
    DecodeReadingValue(0x00, 0x01);
  }

  /** The globals `AcX`, `AcY`, `AcZ`, `temp`, `GyX`, `GyY`, `GyZ`. */
  datatype Readings = Readings(acX: Int16, acY: Int16, acZ: Int16, temp: Int16,
                               gyX: Int16, gyY: Int16, gyZ: Int16)
  {
    /** The readings in register order. */
    function AsSeq(): seq<Int16> {
      [acX, acY, acZ, temp, gyX, gyY, gyZ]
    }
  }

  const BlockSize := 14

  /** The readings held by a register block. */
  function DecodeBlock(buf: seq<Byte>): (r: Readings)
    requires |buf| == BlockSize
    ensures forall i :: 0 <= i < 7 ==> r.AsSeq()[i] == DecodeReading(buf[2 * i], buf[2 * i + 1])
  {
    Readings(DecodeReading(buf[0], buf[1]), DecodeReading(buf[2], buf[3]),
             DecodeReading(buf[4], buf[5]), DecodeReading(buf[6], buf[7]),
             DecodeReading(buf[8], buf[9]), DecodeReading(buf[10], buf[11]),
             DecodeReading(buf[12], buf[13]))
  }

  function EncodeAll(vs: seq<Int16>): (buf: seq<Byte>)
    ensures |buf| == 2 * |vs|
    ensures forall i :: 0 <= i < |vs| ==> (buf[2 * i], buf[2 * i + 1]) == EncodeReading(vs[i])
  {
    if vs == [] then []
    else [EncodeReading(vs[0]).0, EncodeReading(vs[0]).1] + EncodeAll(vs[1..])
  }

  /** The register block that holds a set of readings. */
  function EncodeBlock(r: Readings): (buf: seq<Byte>)
    ensures |buf| == BlockSize
  {
    EncodeAll(r.AsSeq())
  }

  lemma DecodeEncodeBlock(r: Readings)
    ensures DecodeBlock(EncodeBlock(r)) == r
  {
    var d := DecodeBlock(EncodeBlock(r));
    forall i | 0 <= i < 7 ensures d.AsSeq()[i] == r.AsSeq()[i] {
      DecodeEncode(r.AsSeq()[i]);
    }
    assert d.AsSeq() == r.AsSeq();
  }

  lemma EncodeDecodeBlock(buf: seq<Byte>)
    requires |buf| == BlockSize
    ensures EncodeBlock(DecodeBlock(buf)) == buf
  {
    var r := DecodeBlock(buf);
    var e := EncodeBlock(r);
    forall i | 0 <= i < 7 ensures e[2 * i] == buf[2 * i] && e[2 * i + 1] == buf[2 * i + 1] {
      EncodeDecode(buf[2 * i], buf[2 * i + 1]);
      assert r.AsSeq()[i] == DecodeReading(buf[2 * i], buf[2 * i + 1]);
    }
    forall k | 0 <= k < BlockSize ensures e[k] == buf[k] {
      var i := k / 2;
      assert k == 2 * i || k == 2 * i + 1;
    }
  }

  /**
   * What `Wire.read()` yields for the `i`th byte requested: the byte the
   * sensor sent, or -1 (stored as `0xFF`) once none is left.
   */
  function BusByte(received: seq<Byte>, i: nat): Byte {
    if i < |received| then received[i] else 0xFF
  }

  function BusBytes(received: seq<Byte>, count: nat): (r: seq<Byte>)
    ensures |r| == count && forall i :: 0 <= i < count ==> r[i] == BusByte(received, i)
  {
    seq(count, i requires 0 <= i < count => BusByte(received, i))
  }

  /** The sensor's globals, as `readMPU` leaves them. */
  class Mpu {
    var acX: Int16
    var acY: Int16
    var acZ: Int16
    var temp: Int16
    var gyX: Int16
    var gyY: Int16
    var gyZ: Int16

    function State(): Readings
      reads this
    {
      Readings(acX, acY, acZ, temp, gyX, gyY, gyZ)
    }

    constructor()
      ensures State() == Readings(0, 0, 0, 0, 0, 0, 0)
    {
      acX, acY, acZ, temp, gyX, gyY, gyZ := 0, 0, 0, 0, 0, 0, 0;
    }

    /** `readMPU`: fetch the register block and decode its seven readings. */
    method ReadMpu(received: seq<Byte>)
      modifies this
      ensures State() == DecodeBlock(BusBytes(received, BlockSize))
    {
      var buf := new Byte[BlockSize];
      MpuReadBytes(received, BlockSize, buf);
      acX := DecodeReading(buf[0], buf[1]);
      acY := DecodeReading(buf[2], buf[3]);
      acZ := DecodeReading(buf[4], buf[5]);
      temp := DecodeReading(buf[6], buf[7]);
      gyX := DecodeReading(buf[8], buf[9]);
      gyY := DecodeReading(buf[10], buf[11]);
      gyZ := DecodeReading(buf[12], buf[13]);
      assert buf[..] == BusBytes(received, BlockSize);
    }
  }

  /** `mpuReadBytes`: the reading loop filling `dest` from the bus. */
  method MpuReadBytes(received: seq<Byte>, count: nat, dest: array<Byte>)
    requires count <= dest.Length
    modifies dest
    ensures dest[..count] == BusBytes(received, count)
    ensures dest[count..] == old(dest[count..])
  {
    var i := 0;
    while i < count
      invariant 0 <= i <= count
      invariant forall k :: 0 <= k < i ==> dest[k] == BusByte(received, k)
      invariant dest[count..] == old(dest[count..])
    {
      dest[i] := BusByte(received, i);
      i := i + 1;
    }
  }

  // ---------------------------------------------------------------------
  // printBalance

  datatype Balance = Balanced | Forward | Backward | Right | Left

  function Label(b: Balance): string {
    match b
    case Balanced => "BALANCED"
    case Forward => "FORWARD"
    case Backward => "BACKWARD"
    case Right => "RIGHT"
    case Left => "LEFT"
  }

  lemma LabelsDistinct(a: Balance, b: Balance)
    ensures Label(a) == Label(b) ==> a == b
  {
    if Label(a) == Label(b) {
      assert |Label(a)| == |Label(b)| && Label(a)[0] == Label(b)[0];
    }
  }

  const Threshold: real := 5.0

  function Abs(x: real): real {
    if x < 0.0 then -x else x
  }

  /** The direction `printBalance` reports; `None` if no branch were taken. */
  function Classify(pitch: real, roll: real): Option<Balance> {
    if Abs(pitch) < Threshold && Abs(roll) < Threshold then Some(Balanced)
    else if pitch >= Threshold then Some(Forward)
    else if pitch <= -Threshold then Some(Backward)
    else if roll >= Threshold then Some(Right)
    else if roll <= -Threshold then Some(Left)
    else None
  }

  /**
   * Exactly one direction is reported for every pitch and roll: balanced
   * exactly when both are within the threshold; otherwise pitch decides
   * before roll.
   */
  lemma ClassifyTotal(pitch: real, roll: real)
    ensures Classify(pitch, roll).Some?
    ensures Classify(pitch, roll) == Some(Balanced) <==> Abs(pitch) < Threshold && Abs(roll) < Threshold
    ensures Classify(pitch, roll) == Some(Forward) <==> pitch >= Threshold
    ensures Classify(pitch, roll) == Some(Backward) <==> pitch <= -Threshold
    ensures Classify(pitch, roll) == Some(Right) <==> Abs(pitch) < Threshold && roll >= Threshold
    ensures Classify(pitch, roll) == Some(Left) <==> Abs(pitch) < Threshold && roll <= -Threshold
  {
  }

  /** The temperature line: the hot message exactly above 30 degrees. */
  datatype TemperatureReport = Hot | Mild

  function ReportTemperature(temperature: real): TemperatureReport {
    if temperature > 30.0 then Hot else Mild
  }

  lemma HotIff(temperature: real)
    ensures ReportTemperature(temperature) == Hot <==> temperature > 30.0
  {
  }
}
