/**
 * The client's connection state machine: scanning for the board, claiming
 * the first port that answers with the telemetry signature, and
 * disconnecting. Each step is one sequential transition; the lock in
 * `ConnectSuccess` makes its check-and-set atomic, so it is one step here.
 * Serial ports are abstract identifiers and closing one is recorded in
 * `closed`.
 */
module Link {
  import opened Wrappers
  import opened Text
  import opened Framing

  type PortId = nat

  /** `scanTokenSource`: none yet, or one that may have been cancelled. */
  datatype ScanToken = NoToken | Token(cancelled: bool)

  datatype LinkState = LinkState(
    isConnected: bool,
    isScanning: bool,
    connectedPort: string,
    statusMessage: string,
    serialPort: Option<PortId>,   // the adopted port, once there is one
    portOpen: bool,               // whether `serialPort` is open
    keepReading: bool,
    scan: ScanToken,
    closed: seq<PortId>)          // every port closed so far, in order

  const NoPortName := "None"
  const DisconnectedStatus := "Disconnected"
  const ScanningStatus := "Scanning all ports..."
  const RetryStatus := "Device not found. Retrying..."
  const ConnectedPrefix := "Connected: "

  /** The field initialisers of a fresh client. */
  const Initial := LinkState(false, false, NoPortName, DisconnectedStatus, None, false, false, NoToken, [])

  /** Connected means: a port adopted and open, the reader running, no scan. */
  predicate Inv(s: LinkState) {
    s.isConnected ==> s.serialPort.Some? && s.portOpen && s.keepReading && !s.isScanning
  }

  /** The guard of `SendString`: connected and the port open. */
  predicate CanSend(s: LinkState) {
    s.isConnected && s.serialPort.Some? && s.portOpen
  }

  /** The condition the read loop of `ReadDataThread` keeps running under. */
  predicate Reading(s: LinkState) {
    s.keepReading && s.serialPort.Some? && s.portOpen
  }

  // ---------------------------------------------------------------------
  // Transitions

  /** `StartAutoConnection`: begin a scan unless one runs or a port is held. */
  function StartAutoConnectionStep(s: LinkState): LinkState {
    if s.isScanning || s.isConnected then s
    else s.(isScanning := true, statusMessage := ScanningStatus)
  }

  /** `RetryScan`: give up the current scan and start another (its pause is not modelled). */
  function RetryScanStep(s: LinkState): LinkState {
    StartAutoConnectionStep(s.(isScanning := false, statusMessage := RetryStatus))
  }

  /** The start of `ScanAllPortsParallel`: retry when there are no ports, else make a fresh token. */
  function ScanBeginStep(s: LinkState, portCount: nat): LinkState {
    if portCount == 0 then RetryScanStep(s) else s.(scan := Token(false))
  }

  /** The end of `ScanAllPortsParallel`, once every probe has finished. */
  function ScanEndStep(s: LinkState): LinkState {
    if !s.isConnected then RetryScanStep(s) else s
  }

  /** `ConnectSuccess`: the first claimant wins; a later one only has its port closed. */
  function ConnectSuccessStep(s: LinkState, port: PortId, portName: string): LinkState
    requires s.scan.Token?
  {
    if s.isConnected then s.(closed := s.closed + [port])
    else s.(isConnected := true, isScanning := false, serialPort := Some(port), portOpen := true,
            connectedPort := portName, statusMessage := ConnectedPrefix + portName,
            scan := Token(true), keepReading := true)
  }

  /** `Disconnect`: cancel any scan, stop reading, close the adopted port if open. */
  function DisconnectStep(s: LinkState): LinkState {
    var closing := s.serialPort.Some? && s.portOpen;
    s.(scan := if s.scan.Token? then Token(true) else NoToken,
       isScanning := false, keepReading := false, isConnected := false,
       portOpen := false,
       closed := if closing then s.closed + [s.serialPort.value] else s.closed,
       statusMessage := DisconnectedStatus)
  }

  // ---------------------------------------------------------------------
  // Properties of the transitions

  /** `StartAutoConnection` changes nothing exactly when a scan runs or a port is held. */
  lemma StartGuard(s: LinkState)
    ensures StartAutoConnectionStep(s) == s <==> (s.isScanning || s.isConnected)
    ensures !(s.isScanning || s.isConnected) ==>
      StartAutoConnectionStep(s).isScanning && StartAutoConnectionStep(s).statusMessage == ScanningStatus
  {
  }

  /**
   * Unfolding of `RetryScanStep`, field by field: a retry starts a new
   * scan when no port is held; while one is held it only clears
   * `isScanning` and leaves the retry message as the status.
   */
  lemma RetryOutcome(s: LinkState)
    ensures !s.isConnected ==> RetryScanStep(s).isScanning && RetryScanStep(s).statusMessage == ScanningStatus
    ensures s.isConnected ==> RetryScanStep(s) == s.(isScanning := false, statusMessage := RetryStatus)
  {
  }

  /**
   * Unfolding of `ConnectSuccessStep`, field by field: a claim on a free
   * link adopts the port and records its name; a claim on a held link
   * closes the offered port and changes nothing else.
   */
  lemma ConnectSuccessOutcome(s: LinkState, port: PortId, portName: string)
    requires s.scan.Token?
    ensures var t := ConnectSuccessStep(s, port, portName);
      !s.isConnected ==>
        t.isConnected && !t.isScanning && t.serialPort == Some(port) && t.portOpen
        && t.connectedPort == portName && t.statusMessage == ConnectedPrefix + portName
        && t.scan == Token(true) && t.keepReading && t.closed == s.closed
    ensures s.isConnected ==> ConnectSuccessStep(s, port, portName) == s.(closed := s.closed + [port])
  {
  }

  /** Unfolding of `DisconnectStep`: afterwards nothing is held, scanned for or read. */
  lemma DisconnectResets(s: LinkState)
    ensures var t := DisconnectStep(s);
      !t.isConnected && !t.isScanning && !t.keepReading && !t.portOpen
      && t.statusMessage == DisconnectedStatus && !Reading(t) && !CanSend(t)
      && t.connectedPort == s.connectedPort && t.serialPort == s.serialPort
      && (t.scan.Token? <==> s.scan.Token?) && (t.scan.Token? ==> t.scan.cancelled)
  {
  }

  /** A second `Disconnect` changes nothing: it closes no port twice. */
  lemma DisconnectIdempotent(s: LinkState)
    ensures DisconnectStep(DisconnectStep(s)) == DisconnectStep(s)
  {
  }

  /** Every transition keeps the invariant, the probe's steps included. */
  lemma InvPreserved(s: LinkState, portCount: nat, port: PortId, portName: string, p: Probe, chunk: string)
    requires Inv(s)
    ensures Inv(StartAutoConnectionStep(s))
    ensures Inv(RetryScanStep(s))
    ensures Inv(ScanBeginStep(s, portCount))
    ensures Inv(ScanEndStep(s))
    ensures s.scan.Token? ==> Inv(ConnectSuccessStep(s, port, portName))
    ensures Inv(DisconnectStep(s))
    ensures Inv(ProbeAbandon(s, p))
    ensures s.scan.Token? ==> Inv(ProbeRead(s, p, chunk).0) && Inv(ProbeReadClosing(s, p, chunk).0)
  {
  }

  /** Under the invariant, the send guard and the reader's loop condition follow from `isConnected`. */
  lemma ConnectedMeansUsable(s: LinkState)
    requires Inv(s)
    ensures CanSend(s) <==> s.isConnected
    ensures s.isConnected ==> Reading(s)
  {
  }

  /** Claims arriving one after another, each handled by `ConnectSuccess`. */
  function ClaimAll(s: LinkState, claims: seq<(PortId, string)>): (t: LinkState)
    requires s.scan.Token?
    ensures t.scan.Token?
    decreases |claims|
  {
    if claims == [] then s
    else ClaimAll(ConnectSuccessStep(s, claims[0].0, claims[0].1), claims[1..])
  }

  function PortsOf(claims: seq<(PortId, string)>): seq<PortId> {
    if claims == [] then [] else [claims[0].0] + PortsOf(claims[1..])
  }

  /** On a held link every further claim only closes its port, in order. */
  lemma {:induction false} ClaimAllWhileConnected(s: LinkState, claims: seq<(PortId, string)>)
    requires s.scan.Token? && s.isConnected
    ensures ClaimAll(s, claims) == s.(closed := s.closed + PortsOf(claims))
    decreases |claims|
  {
    if claims == [] {
      assert s.closed + [] == s.closed;
    } else {
      var s1 := ConnectSuccessStep(s, claims[0].0, claims[0].1);
      ClaimAllWhileConnected(s1, claims[1..]);
      assert s.closed + [claims[0].0] + PortsOf(claims[1..]) == s.closed + PortsOf(claims);
    }
  }

  /**
   * At most one port is ever adopted: of several claims on a free link the
   * first wins, and every later claimant's port is closed.
   */
  lemma FirstClaimWins(s: LinkState, claims: seq<(PortId, string)>)
    requires s.scan.Token? && !s.isConnected && claims != []
    ensures var t := ClaimAll(s, claims);
      t.isConnected && t.serialPort == Some(claims[0].0) && t.connectedPort == claims[0].1
      && t.closed == s.closed + PortsOf(claims[1..])
  {
    var s1 := ConnectSuccessStep(s, claims[0].0, claims[0].1);
    ClaimAllWhileConnected(s1, claims[1..]);
  }

  // ---------------------------------------------------------------------
  // The handshake of `CheckSinglePort`

  /** The text that identifies the board: telemetry, or any terminated frame. */
  predicate IsSignature(accumulated: string) {
    Contains(accumulated, "Mpu_Values") || Contains(accumulated, Terminator)
  }

  /** Once heard, the signature stays heard however much more arrives. */
  lemma SignatureStays(accumulated: string, more: string)
    requires IsSignature(accumulated)
    ensures IsSignature(accumulated + more)
  {
    if Contains(accumulated, "Mpu_Values") {
      IndexOfExtend(accumulated, more, "Mpu_Values");
    } else {
      IndexOfExtend(accumulated, more, Terminator);
    }
  }

  /** A probe of one port: the port, its name and the text it has sent so far. */
  datatype Probe = Probe(port: PortId, name: string, accumulated: string)

  /**
   * One read of the listening loop, as written: an empty read changes
   * nothing; otherwise the text is accumulated and, once it holds the
   * signature, the probe ends, claiming the port only if no port is held.
   * `None` means the probe has returned.
   */
  function ProbeRead(s: LinkState, p: Probe, chunk: string): (LinkState, Option<Probe>)
    requires s.scan.Token?
  {
    if chunk == "" then (s, Some(p))
    else
      var accumulated := p.accumulated + chunk;
      if IsSignature(accumulated) then
        (if !s.isConnected then ConnectSuccessStep(s, p.port, p.name) else s, None)
      else (s, Some(p.(accumulated := accumulated)))
  }

  /** A probe that is cancelled, times out or fails closes its port. */
  function ProbeAbandon(s: LinkState, p: Probe): LinkState {
    s.(closed := s.closed + [p.port])
  }

  /** A probe changes the link only on hearing the signature. */
  lemma ProbeClaimsOnlyOnSignature(s: LinkState, p: Probe, chunk: string)
    requires s.scan.Token?
    ensures ProbeRead(s, p, chunk).0 != s ==> IsSignature(p.accumulated + chunk)
    ensures ProbeRead(s, p, chunk).1.None? <==> (chunk != "" && IsSignature(p.accumulated + chunk))
  {
  }

  /**
   * As written, a probe that hears the signature after another port was
   * adopted returns without closing its own port: here port 1 ends neither
   * adopted nor closed.
   */
  lemma ProbeLeaksPort()
    ensures var s := Initial.(scan := Token(true), isConnected := true, serialPort := Some(0),
                              portOpen := true, keepReading := true);
      var r := ProbeRead(s, Probe(1, "COM4", ""), Terminator);
      r.1.None? && r.0.serialPort != Some(1) && 1 !in r.0.closed
  {
    assert Contains(Terminator, Terminator) by {
      assert OccursAt(Terminator, Terminator, 0);
      IndexOfFromIsFirst(Terminator, Terminator, 0, 0);
    }
  }

  /**
   * The read with the close the losing path needs: on hearing the signature
   * the probe always hands its port to `ConnectSuccess`, which adopts it or,
   * when a port is already held, closes it.
   */
  function ProbeReadClosing(s: LinkState, p: Probe, chunk: string): (LinkState, Option<Probe>)
    requires s.scan.Token?
  {
    if chunk == "" then (s, Some(p))
    else
      var accumulated := p.accumulated + chunk;
      if IsSignature(accumulated) then (ConnectSuccessStep(s, p.port, p.name), None)
      else (s, Some(p.(accumulated := accumulated)))
  }

  /** The two reads differ only on the losing path, where the port is now closed. */
  lemma ProbeReadClosingAgrees(s: LinkState, p: Probe, chunk: string)
    requires s.scan.Token?
    ensures ProbeReadClosing(s, p, chunk).1 == ProbeRead(s, p, chunk).1
    ensures !s.isConnected ==> ProbeReadClosing(s, p, chunk) == ProbeRead(s, p, chunk)
    ensures s.isConnected && ProbeRead(s, p, chunk).1.None? ==>
      ProbeReadClosing(s, p, chunk).0 == ProbeRead(s, p, chunk).0.(closed := s.closed + [p.port])
  {
  }

  /**
   * No port is leaked: a probe that ends has its port either adopted as the
   * link's port or closed, and the link keeps its invariant.
   */
  lemma ProbeEndsAccounted(s: LinkState, p: Probe, chunk: string)
    requires s.scan.Token? && Inv(s)
    ensures var r := ProbeReadClosing(s, p, chunk);
      Inv(r.0) &&
      (r.1.None? ==> (r.0.isConnected && r.0.serialPort == Some(p.port)) || r.0.closed == s.closed + [p.port])
  {
  }
}
