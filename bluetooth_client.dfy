/**
 * The serial-link client itself: the fields the Unity component keeps and
 * the methods that update them, each proved against the pure transitions
 * and decoders of `Link`, `Framing`, `Telemetry` and `Commands`.
 */
module Bluetooth {
  import opened Wrappers
  import opened Text
  import opened Framing
  import opened Telemetry
  import opened Commands
  import opened Link

  class BluetoothClient {
    // Connection status
    var connectedPort: string
    var isConnected: bool
    var statusMessage: string

    // Live data
    var pitch: real
    var roll: real
    var temperature: real

    // Internal
    var serialPort: Option<PortId>
    var portOpen: bool
    var keepReading: bool
    var isScanning: bool
    var buffer: string
    var scan: ScanToken
    var closed: seq<PortId>

    /** Every frame written to the port, in order. */
    var written: seq<string>
    /** Every message handed to `ParseMessage`, in order. */
    ghost var parsed: seq<string>

    /** The runtime's number parser. */
    const parse: NumberParser

    function State(): LinkState
      reads this
    {
      LinkState(isConnected, isScanning, connectedPort, statusMessage, serialPort, portOpen,
                keepReading, scan, closed)
    }

    function Sample(): Telemetry.Sample
      reads this
    {
      Telemetry.Sample(pitch, roll, temperature)
    }

    constructor(parse: NumberParser)
      ensures State() == Initial && Inv(State())
      ensures Sample() == Telemetry.Sample(0.0, 0.0, 0.0)
      ensures buffer == [] && written == [] && parsed == [] && this.parse == parse
    {
      connectedPort := NoPortName;
      isConnected := false;
      statusMessage := DisconnectedStatus;
      pitch, roll, temperature := 0.0, 0.0, 0.0;
      serialPort := None;
      portOpen := false;
      keepReading := false;
      isScanning := false;
      buffer := [];
      scan := NoToken;
      closed := [];
      written := [];
      parsed := [];
      this.parse := parse;
    }

    // -------------------------------------------------------------------
    // Connection

    method StartAutoConnection()
      modifies this`isScanning, this`statusMessage
      ensures State() == StartAutoConnectionStep(old(State()))
    {
      if isScanning || isConnected {
        return;
      }
      isScanning := true;
      statusMessage := ScanningStatus;
    }

    method RetryScan()
      modifies this`isScanning, this`statusMessage
      ensures State() == RetryScanStep(old(State()))
    {
      isScanning := false;
      statusMessage := RetryStatus;
      StartAutoConnection();
    }

    /** The start of `ScanAllPortsParallel`, given how many ports the system reports. */
    method ScanBegin(portCount: nat)
      modifies this`isScanning, this`statusMessage, this`scan
      ensures State() == ScanBeginStep(old(State()), portCount)
    {
      if portCount == 0 {
        RetryScan();
        return;
      }
      scan := Token(false);
    }

    /** The end of `ScanAllPortsParallel`, once every probe has finished. */
    method ScanEnd()
      modifies this`isScanning, this`statusMessage
      ensures State() == ScanEndStep(old(State()))
    {
      if !isConnected {
        RetryScan();
      }
    }

    method ConnectSuccess(port: PortId, portName: string)
      requires scan.Token?
      modifies this`isConnected, this`isScanning, this`serialPort, this`portOpen, this`connectedPort,
               this`statusMessage, this`scan, this`keepReading, this`closed
      ensures State() == ConnectSuccessStep(old(State()), port, portName)
    {
      if isConnected {
        closed := closed + [port];
        return;
      }
      isConnected := true;
      isScanning := false;
      serialPort := Some(port);
      portOpen := true;
      connectedPort := portName;
      statusMessage := ConnectedPrefix + portName;
      scan := Token(true);
      keepReading := true;
    }

    /**
     * One read of a probe's listening loop, with the losing path closing its
     * port; returns the probe to continue with, or `None` once it has ended.
     */
    method ProbeRead(p: Probe, chunk: string) returns (next: Option<Probe>)
      requires scan.Token?
      modifies this`isConnected, this`isScanning, this`serialPort, this`portOpen, this`connectedPort,
               this`statusMessage, this`scan, this`keepReading, this`closed
      ensures State() == ProbeReadClosing(old(State()), p, chunk).0
      ensures next == ProbeReadClosing(old(State()), p, chunk).1
    {
      if chunk == "" {
        return Some(p);
      }
      var accumulated := p.accumulated + chunk;
      if IsSignature(accumulated) {
        ConnectSuccess(p.port, p.name);
        return None;
      }
      return Some(p.(accumulated := accumulated));
    }

    method Disconnect()
      modifies this`scan, this`isScanning, this`keepReading, this`isConnected, this`portOpen,
               this`closed, this`statusMessage
      ensures State() == DisconnectStep(old(State()))
    {
      if scan.Token? {
        scan := Token(true);
      }
      isScanning := false;
      keepReading := false;
      isConnected := false;
      if serialPort.Some? && portOpen {
        closed := closed + [serialPort.value];
      }
      portOpen := false;
      statusMessage := DisconnectedStatus;
    }

    // -------------------------------------------------------------------
    // Sending

    /**
     * Writes `message` when connected with the port open; `accepted` says
     * whether the write completed (a failed write is swallowed).
     */
    method SendString(message: string, accepted: bool)
      modifies this`written
      ensures written == old(written) + (if CanSend(State()) && accepted then [message] else [])
    {
      if isConnected && serialPort.Some? && portOpen {
        if accepted {
          written := written + [message];
        }
      }
    }

    method SendOff(accepted: bool)
      modifies this`written
      ensures written == old(written) + (if CanSend(State()) && accepted then ["Off>>"] else [])
    {
      FixedFrames();
      SendString(Encode(Off), accepted);
    }

    method SendRainbow(accepted: bool)
      modifies this`written
      ensures written == old(written) + (if CanSend(State()) && accepted then ["Rainbow>>"] else [])
    {
      FixedFrames();
      SendString(Encode(Rainbow), accepted);
    }

    method SendIdle(accepted: bool)
      modifies this`written
      ensures written == old(written) + (if CanSend(State()) && accepted then ["Idle>>"] else [])
    {
      FixedFrames();
      SendString(Encode(Idle), accepted);
    }

    /** `r`, `g` and `b` are the already rounded 0..255 channel values. */
    method SendColor(r: int, g: int, b: int, side: BoardSide, accepted: bool)
      modifies this`written
      ensures written == old(written) + (if CanSend(State()) && accepted then [Encode(Color(r, g, b, side))] else [])
      ensures CanSend(State()) && accepted ==> Decode(written[|written| - 1]) == Some(Color(r, g, b, side))
    {
      SendString(Encode(Color(r, g, b, side)), accepted);
      DecodeEncode(Color(r, g, b, side));
    }

    // -------------------------------------------------------------------
    // Receiving

    method ParseMessage(msg: string)
      modifies this`pitch, this`roll, this`temperature
      ensures Sample() == ApplyMessage(old(Sample()), msg, parse)
    {
      if StartsWith(msg, MpuPrefix) {
        pitch := ExtractValue(msg, PitchKey, FieldEnd, parse);
        roll := ExtractValue(msg, RollKey, FieldEnd, parse);
        temperature := ExtractValue(msg, TemperatureKey, "", parse);
      }
    }

    /**
     * Appends `newData` to the buffer, then hands every terminated message
     * to `ParseMessage`, in order, keeping only the unterminated rest.
     */
    method ProcessIncomingData(newData: string)
      modifies this`buffer, this`pitch, this`roll, this`temperature, this`parsed
      ensures buffer == Feed(old(buffer), newData).rest
      ensures !Contains(buffer, Terminator)
      ensures parsed == old(parsed) + Feed(old(buffer), newData).Messages()
      ensures Sample() == ApplyAll(old(Sample()), Feed(old(buffer), newData).Messages(), parse)
    {
      buffer := buffer + newData;
      ghost var frames := Split(buffer);
      ghost var done: seq<string> := [];
      ghost var s0 := Sample();
      ghost var parsed0 := parsed;
      var terminatorIndex := IndexOf(buffer, Terminator);
      while terminatorIndex != -1
        invariant terminatorIndex == IndexOf(buffer, Terminator)
        invariant done + Split(buffer).bodies == frames.bodies
        invariant Split(buffer).rest == frames.rest
        invariant parsed == parsed0 + TrimAll(done)
        invariant Sample() == ApplyAll(s0, TrimAll(done), parse)
        decreases |buffer|
      {
        var cleanMessage := Trim(buffer[..terminatorIndex]);
        ghost var raw := buffer[..terminatorIndex];
        SplitAt(buffer, terminatorIndex);
        buffer := buffer[terminatorIndex + 2..];
        ParseMessage(cleanMessage);
        parsed := parsed + [cleanMessage];
        ProcessedOneMore(s0, done, raw, parse);
        AppendAssoc(done, [raw], Split(buffer).bodies);
        done := done + [raw];
        terminatorIndex := IndexOf(buffer, Terminator);
      }
      SplitNone(buffer);
      assert done == frames.bodies;
    }

    /**
     * One pass of `ReadDataThread`'s loop: a failed read disconnects, a
     * non-empty read is processed, an empty one changes nothing.
     */
    method ReadOnce(incoming: string, readFails: bool)
      requires !Contains(buffer, Terminator)
      modifies this`scan, this`isScanning, this`keepReading, this`isConnected, this`portOpen,
               this`closed, this`statusMessage, this`buffer, this`pitch, this`roll, this`temperature,
               this`parsed
      ensures readFails ==> State() == DisconnectStep(old(State())) && buffer == old(buffer)
                            && Sample() == old(Sample())
      ensures !readFails ==> State() == old(State()) && buffer == Feed(old(buffer), incoming).rest
                             && Sample() == ApplyAll(old(Sample()), Feed(old(buffer), incoming).Messages(), parse)
    {
      if readFails {
        Disconnect();
      } else if incoming != "" {
        ProcessIncomingData(incoming);
      } else {
        assert old(buffer) + incoming == old(buffer);
        SplitNone(old(buffer));
      }
    }
  }

  /** Handing one more trimmed frame body to `ParseMessage` extends the run. */
  lemma ProcessedOneMore(s0: Telemetry.Sample, done: seq<string>, raw: string, parse: NumberParser)
    ensures TrimAll(done + [raw]) == TrimAll(done) + [Trim(raw)]
    ensures ApplyAll(s0, TrimAll(done + [raw]), parse)
         == ApplyMessage(ApplyAll(s0, TrimAll(done), parse), Trim(raw), parse)
  {
    TrimAllAppend(done, [raw]);
    assert TrimAll([raw]) == [Trim(raw)];
    var msgs := TrimAll(done) + [Trim(raw)];
    assert msgs[..|msgs| - 1] == TrimAll(done);
  }

  /**
   * Chunk independence for the live data: processing `a` and then `b`
   * leaves the same readings (and buffer) as processing `a + b` at once.
   */
  lemma ReceiveTwice(s: Telemetry.Sample, buffer: string, a: string, b: string, parse: NumberParser)
    ensures ApplyAll(ApplyAll(s, Feed(buffer, a).Messages(), parse), Feed(Feed(buffer, a).rest, b).Messages(), parse)
         == ApplyAll(s, Feed(buffer, a + b).Messages(), parse)
    ensures Feed(Feed(buffer, a).rest, b).rest == Feed(buffer, a + b).rest
  {
    FeedTwice(buffer, a, b);
    ApplyAllAppend(s, Feed(buffer, a).Messages(), Feed(Feed(buffer, a).rest, b).Messages(), parse);
  }

  /**
   * End to end: a telemetry frame in the layout the client expects,
   * received in one read, sets pitch, roll and temperature to its three
   * fields (`TelemetryChunksSetReadings` lets the frame arrive in pieces).
   */
  lemma TelemetryFrameSetsReadings(s: Telemetry.Sample, p: string, r: string, t: string, parse: NumberParser)
    requires IsWireField(p) && IsWireField(r) && IsWireField(t)
    ensures Feed([], MpuMessage(p, r, t) + Terminator) == Frames([MpuMessage(p, r, t)], [])
    ensures ApplyAll(s, Feed([], MpuMessage(p, r, t) + Terminator).Messages(), parse)
         == Telemetry.Sample(ParseOrZero(parse, p), ParseOrZero(parse, r), ParseOrZero(parse, t))
  {
    var msg := MpuMessage(p, r, t);
    MpuMessageLacksAngle(p, r, t);
    NoAngleIsFrameBody(msg);
    assert !Contains([], Terminator);
    SplitCharacterised([msg], []);
    assert Join([msg]) + [] == [] + (msg + Terminator);
    assert msg[0] == 'M' && !IsWhiteSpace(msg[0]);
    assert msg[|msg| - 1] == t[|t| - 1];
    TrimNoWhiteSpace(msg);
    assert TrimAll([msg]) == [msg];
    MpuMessageDecodes(s, p, r, t, parse);
    assert ([] + [msg])[..0] == [];
  }

  /**
   * However a telemetry frame is cut into successive reads, the frames the
   * reads deliver together are that one message, and parsing them sets
   * pitch, roll and temperature to its three fields.
   */
  lemma TelemetryChunksSetReadings(s: Telemetry.Sample, p: string, r: string, t: string,
                                   parse: NumberParser, chunks: seq<string>)
    requires IsWireField(p) && IsWireField(r) && IsWireField(t)
    requires Concat(chunks) == MpuMessage(p, r, t) + Terminator
    ensures FeedAll([], chunks) == Frames([MpuMessage(p, r, t)], [])
    ensures ApplyAll(s, FeedAll([], chunks).Messages(), parse)
         == Telemetry.Sample(ParseOrZero(parse, p), ParseOrZero(parse, r), ParseOrZero(parse, t))
  {
    assert !Contains([], Terminator);
    FeedAllIsFeedConcat([], chunks);
    TelemetryFrameSetsReadings(s, p, r, t, parse);
  }

  lemma MpuMessageLacksAngle(p: string, r: string, t: string)
    requires IsWireField(p) && IsWireField(r) && IsWireField(t)
    ensures Lacks(MpuMessage(p, r, t), '>')
  {
    var m0 := MpuPrefix + " " + PitchKey;
    LacksAppend(MpuPrefix, " ", '>');
    LacksAppend(MpuPrefix + " ", PitchKey, '>');
    LacksAppend(m0, p, '>');
    LacksAppend(m0 + p, FieldEnd, '>');
    LacksAppend(m0 + p + FieldEnd, " ", '>');
    LacksAppend(m0 + p + FieldEnd + " ", RollKey, '>');
    var m1 := m0 + p + FieldEnd + " " + RollKey;
    LacksAppend(m1, r, '>');
    LacksAppend(m1 + r, FieldEnd, '>');
    LacksAppend(m1 + r + FieldEnd, " ", '>');
    LacksAppend(m1 + r + FieldEnd + " ", TemperatureKey, '>');
    LacksAppend(m1 + r + FieldEnd + " " + TemperatureKey, t, '>');
  }
}
