/** The browser-side signalling and reconnection state machine of the AirPlay
    viewer (`WebRTCStream.jsx`), as a pure transition function over a snapshot
    of the component's state.

    Every handler of the component is one `Event`; `Step` is what the handler
    does to the state, and `Enabled` says when the browser or the user can
    deliver it. Handlers run to completion: the awaits inside a handler are
    taken as atomic, and the outcomes of browser calls (offer creation,
    setRemoteDescription, addIceCandidate) are parameters of the event.

    React closures. The handlers installed by a click on Start read `status`
    as it was when that click was rendered, not its current value. The field
    `seenStatus` is that captured value for the handlers of the current
    socket; timers carry the value of the closure that armed them. Internal
    restarts (the 2 s reconnect timer, the countdown's fallback) run the
    captured `startWebRTC`, whose `isConnecting` guard also reads the captured
    value, which was false. */
module SessionMachine {
  import opened Common

  datatype Status = Stopped | Connecting | Connected | Disconnected | Failed | ReadyForReconnect

  /** `RTCPeerConnection.connectionState`. */
  datatype PeerState = PeerNew | PeerConnecting | PeerConnected | PeerDisconnected | PeerFailed | PeerClosed

  /** `RTCPeerConnection.iceConnectionState`. */
  datatype IceState = IceNew | IceChecking | IceConnected | IceCompleted | IceDisconnected | IceFailed | IceClosed

  /** Which of the two handler sets the peer connection carries: the ones
      installed by `startWebRTC`, or the reduced ones installed by
      `startWebRTCWithExistingSocket`. */
  datatype Handlers = FullStart | AutoReconnect

  /** The peer connection as far as the component can observe it. `applied`
      lists the remote ICE candidates the connection accepted, in order. */
  datatype Peer = Peer(handlers: Handlers, conn: PeerState, ice: IceState,
                       remoteSet: bool, applied: seq<string>)

  /** The ready state of the socket held in `wsRef`. */
  datatype Socket = NoSocket | Opening | Open | Closed

  /** What the component sends on the signalling socket. */
  datatype Outgoing = OfferSent | CandidateSent(candidate: string)

  /** The outcome of a browser call that may throw. */
  datatype Outcome = Ok | Err(message: string)

  /** A socket that Stop closed but whose events are still to be delivered:
      the status its handlers captured, and whether it was still connecting
      (closing a connecting socket fires `error` before `close`). */
  datatype ClosingSocket = ClosingSocket(seen: Status, wasOpening: bool)

  datatype Session = Session(
    status: Status,
    isConnecting: bool,
    error: Option<string>,
    serverStatus: Option<string>,
    countdown: Option<nat>,         // autoReconnectCountdown; Some exactly while its timer is armed
    countdownSeen: Status,          // status captured by the running countdown
    pending: seq<string>,           // pendingIceCandidates
    pc: Option<Peer>,               // pcRef
    ws: Socket,                     // wsRef
    seenStatus: Status,             // status captured by the current socket's handlers
    closing: seq<ClosingSocket>,    // sockets closed by Stop, events not yet delivered
    reconnectTimers: seq<Status>,   // armed 2 s reconnect timers, in firing order
    iceChecks: seq<Status>,         // armed 1 s checks after ICE connected
    offerChecks: seq<Status>,       // armed 3 s checks after the offer
    videoTracks: nat,               // tracks of the video element's srcObject
    outbox: seq<Outgoing>)          // everything sent on the signalling socket

  datatype Event =
    | UserStart                                   // the Start button
    | UserStop                                    // the Stop button
    | UserCancel                                  // the Cancel Auto-reconnect button
    | SocketOpen(offer: Outcome)                  // websocket.onopen
    | SocketError                                 // websocket.onerror
    | SocketClose                                 // websocket.onclose (server or network)
    | ClosedSocketEvents                          // error/close of a socket Stop closed
    | ReconnectTimer                              // the 2 s timer armed by onclose
    | Answer(remote: Outcome, accepts: seq<bool>) // message 'answer'
    | RemoteCandidate(candidate: string, accepted: bool) // message 'ice-candidate'
    | StatusMessage(text: string)                 // message 'status'
    | ErrorMessage(text: string)                  // message 'error'
    | AirplayDisconnected                         // message 'airplay_disconnected'
    | AirplayReconnecting                         // message 'airplay_reconnecting'
    | WebrtcReady                                 // message 'webrtc_ready'
    | ReconnectionReady                           // message 'reconnection_ready'
    | WindowChanged                               // message 'window_changed'
    | UnreadableMessage(reason: string)           // JSON.parse threw
    | CountdownTick(offer: Outcome)               // one second of the countdown
    | ConnectionStateChange(state: PeerState)     // pc.onconnectionstatechange
    | IceStateChange(iceState: IceState)           // pc.oniceconnectionstatechange
    | IceCheckTimer                               // the 1 s check
    | OfferCheckTimer                             // the 3 s check
    | Track                                       // pc.ontrack
    | LocalCandidate(gathered: Option<string>)     // pc.onicecandidate

  // ---------------------------------------------------------------------------
  // Texts shown by the component
  // ---------------------------------------------------------------------------

  const ConnectionFailedText := "WebRTC connection failed"
  const IceFailedText := "Network connection failed (ICE)"
  const SocketFailedText := "WebSocket connection failed"
  const OfferFailedPrefix := "Failed to create offer: "
  const AutoReconnectFailedPrefix := "Auto-reconnection failed: "
  const ServerErrorPrefix := "Server error: "
  const SignalingErrorPrefix := "Signaling error: "
  const AutoCorrectedNotice := "WebRTC connected (auto-corrected)"
  const IceReadyNotice := "WebRTC connected (ICE ready)"
  const PhoneDisconnectedNotice := "iPhone disconnected - waiting for reconnection..."
  const PhoneReconnectingNotice := "iPhone reconnected - starting WebRTC..."
  const WebrtcReadyNotice := "WebRTC connected successfully"
  const NoReconnectNeededNotice := "WebRTC already connected - no reconnection needed"
  const ReconnectScheduledNotice := "iPhone reconnected - auto-reconnecting in 5 seconds"
  const NoWindowReconnectNeededNotice := "WebRTC already connected - no window change reconnection needed"
  const WindowReconnectScheduledNotice := "iPhone reconnected with new window - auto-reconnecting in 5 seconds"
  const CountdownCancelledNotice := "Auto-reconnection cancelled - WebRTC already working"

  /** Seconds the auto-reconnect countdown starts from. */
  const CountdownSeconds: nat := 5

  /** mDNS host names end in this label (section 3 of RFC 6762). */
  const MdnsMarker := ".local"

  const Initial := Session(Stopped, false, None, None, None, Stopped, [], None, NoSocket,
                           Stopped, [], [], [], [], 0, [])

  function FreshPeer(h: Handlers): Peer
  {
    Peer(h, PeerNew, IceNew, false, [])
  }

  // ---------------------------------------------------------------------------
  // The liveness guard
  // ---------------------------------------------------------------------------

  /** The test run before an automatic reconnection: the peer connection
      reports connected (either state) while the captured status is
      connected, or the video element already holds a track. */
  predicate IsLive(pc: Option<Peer>, seen: Status, videoTracks: nat)
  {
    (pc.Some? && (pc.value.conn == PeerConnected || pc.value.ice == IceConnected) && seen == Connected)
    || videoTracks > 0
  }

  // ---------------------------------------------------------------------------
  // Building blocks of the handlers
  // ---------------------------------------------------------------------------

  /** `startWebRTC`: `connecting` reads the `isConnecting` of the closure that
      runs it, `seen` is the status its new handlers capture. */
  function Launch(s: Session, seen: Status, connecting: bool): Session
  {
    if connecting then s
    else s.(isConnecting := true, status := Connecting, error := None,
            ws := Opening, pc := Some(FreshPeer(FullStart)), seenStatus := seen)
  }

  /** `startWebRTCWithExistingSocket`, run by the countdown: its guard reads a
      captured `false`; without an open socket it falls back to `startWebRTC`. */
  function Reuse(s: Session, seen: Status, offer: Outcome): Session
  {
    if s.ws != Open then Launch(s, seen, false)
    else
      var s1 := s.(isConnecting := true, status := Connecting, error := None,
                   pc := Some(FreshPeer(AutoReconnect)));
      match offer
      case Ok => s1.(outbox := s1.outbox + [OfferSent])
      case Err(m) => s1.(error := Some(AutoReconnectFailedPrefix + m), status := Failed, isConnecting := false)
  }

  /** `stopWebRTC`. */
  function Stop(s: Session): Session
  {
    s.(countdown := None, isConnecting := false, status := Stopped, error := None,
       serverStatus := None, pending := [], videoTracks := 0,
       closing := ClosingAfterStop(s.closing, s.ws, s.seenStatus), ws := NoSocket, pc := None)
  }

  /** `wsRef.current.close()`: a socket still connecting or open will deliver
      its events later; a socket already closed delivers nothing more. */
  function ClosingAfterStop(closing: seq<ClosingSocket>, ws: Socket, seen: Status): seq<ClosingSocket>
  {
    if ws == Opening || ws == Open then closing + [ClosingSocket(seen, ws == Opening)] else closing
  }

  /** `websocket.onerror`. */
  function SocketFailure(s: Session): Session
  {
    s.(error := Some(SocketFailedText), status := Failed, isConnecting := false)
  }

  /** `websocket.onclose` of handlers that captured `seen`. */
  function AfterClose(s: Session, seen: Status): Session
  {
    if seen != Stopped then
      s.(status := Disconnected, isConnecting := false, reconnectTimers := s.reconnectTimers + [seen])
    else s
  }

  /** `startAutoReconnectCountdown`: a prior timer is replaced. */
  function StartCountdown(s: Session): Session
  {
    s.(countdown := Some(CountdownSeconds), countdownSeen := s.seenStatus)
  }

  /** The shared shape of `reconnection_ready` and `window_changed`. */
  function ReconnectSignal(s: Session, liveText: string, goText: string): Session
  {
    if IsLive(s.pc, s.seenStatus, s.videoTracks) then s.(serverStatus := Some(liveText))
    else StartCountdown(s.(serverStatus := Some(goText), status := ReadyForReconnect, error := None))
  }

  /** The candidates whose `addIceCandidate` succeeded, in arrival order. */
  function Accepted(cands: seq<string>, accepts: seq<bool>): (r: seq<string>)
    requires |accepts| == |cands|
    ensures |r| <= |cands|
  {
    if |cands| == 0 then []
    else
      var n := |cands| - 1;
      Accepted(cands[..n], accepts[..n]) + (if accepts[n] then [cands[n]] else [])
  }

  function SetConnectionState(s: Session, st: PeerState): Session
    requires s.pc.Some?
  {
    var s1 := s.(pc := Some(s.pc.value.(conn := st)));
    match st
    case PeerConnected =>
      if s.pc.value.handlers == FullStart
      then s1.(status := Connected, error := None, serverStatus := None, isConnecting := false)
      else s1.(status := Connected, error := None, serverStatus := None)
    case PeerFailed => s1.(status := Failed, error := Some(ConnectionFailedText), isConnecting := false)
    case PeerDisconnected => s1.(status := Failed, error := Some(ConnectionFailedText), isConnecting := false)
    case PeerClosed => s1.(status := Stopped, isConnecting := false)
    case PeerConnecting => if s.pc.value.handlers == FullStart then s1.(status := Connecting) else s1
    case PeerNew => s1
  }

  function SetIceState(s: Session, st: IceState): Session
    requires s.pc.Some?
  {
    var s1 := s.(pc := Some(s.pc.value.(ice := st)));
    if st == IceFailed then s1.(error := Some(IceFailedText))
    else if st == IceConnected && s.pc.value.handlers == FullStart
    then s1.(iceChecks := s1.iceChecks + [s.seenStatus])
    else s1
  }

  /** The 1 s check armed when ICE connects, with the status it captured. */
  function IceCheck(s: Session, seen: Status): Session
  {
    if s.pc.Some? && s.pc.value.conn == PeerConnected && seen != Connected
    then s.(status := Connected, error := None, isConnecting := false)
    else s
  }

  /** The 3 s check armed after the offer is sent, with the status it captured. */
  function OfferCheck(s: Session, seen: Status): Session
  {
    if s.pc.None? then s
    else if s.pc.value.conn == PeerConnected && seen != Connected
    then s.(status := Connected, error := None, isConnecting := false, serverStatus := Some(AutoCorrectedNotice))
    else if s.pc.value.ice == IceConnected && s.pc.value.conn != PeerFailed && seen == Connecting
    then s.(status := Connected, error := None, isConnecting := false, serverStatus := Some(IceReadyNotice))
    else s
  }

  function OnAnswer(s: Session, remote: Outcome, accepts: seq<bool>): Session
    requires |accepts| == |s.pending|
  {
    if s.pc.None? then s
    else match remote
      case Err(m) => s.(error := Some(SignalingErrorPrefix + m))
      case Ok =>
        var p := s.pc.value.(remoteSet := true);
        if |s.pending| > 0
        then s.(pc := Some(p.(applied := p.applied + Accepted(s.pending, accepts))), pending := [])
        else s.(pc := Some(p))
  }

  function OnRemoteCandidate(s: Session, c: string, accepted: bool): Session
  {
    if s.pc.None? then s
    else if !s.pc.value.remoteSet then s.(pending := s.pending + [c])
    else if accepted then s.(pc := Some(s.pc.value.(applied := s.pc.value.applied + [c])))
    else s
  }

  function OnLocalCandidate(s: Session, c: Option<string>): Session
  {
    match c
    case None => s
    case Some(text) =>
      if s.ws == Open && !Contains(text, MdnsMarker) then s.(outbox := s.outbox + [CandidateSent(text)])
      else s
  }

  function Tick(s: Session, offer: Outcome): Session
    requires s.countdown.Some?
  {
    var left := s.countdown.value - 1;
    if left <= 0 then
      var s1 := s.(countdown := None);
      if IsLive(s1.pc, s.countdownSeen, s1.videoTracks) then s1.(serverStatus := Some(CountdownCancelledNotice))
      else Reuse(s1, s.countdownSeen, offer)
    else s.(countdown := Some(left))
  }

  // ---------------------------------------------------------------------------
  // The transition relation
  // ---------------------------------------------------------------------------

  /** When an event can be delivered. The buttons follow their `disabled`
      attributes (Start: not connecting and no countdown; Stop: not idle;
      Cancel: shown only during a countdown), messages need an open socket,
      peer-connection events a peer connection, timers an armed timer. */
  predicate Enabled(s: Session, e: Event)
  {
    match e
    case UserStart => !s.isConnecting && s.countdown.None?
    case UserStop => s.isConnecting || s.status != Stopped
    case UserCancel => s.countdown.Some?
    case SocketOpen(_) => s.ws == Opening
    case SocketError => s.ws == Opening || s.ws == Open
    case SocketClose => s.ws == Opening || s.ws == Open
    case ClosedSocketEvents => |s.closing| > 0
    case ReconnectTimer => |s.reconnectTimers| > 0
    case Answer(_, accepts) => s.ws == Open && |accepts| == |s.pending|
    case RemoteCandidate(_, _) => s.ws == Open
    case StatusMessage(_) => s.ws == Open
    case ErrorMessage(_) => s.ws == Open
    case AirplayDisconnected => s.ws == Open
    case AirplayReconnecting => s.ws == Open
    case WebrtcReady => s.ws == Open
    case ReconnectionReady => s.ws == Open
    case WindowChanged => s.ws == Open
    case UnreadableMessage(_) => s.ws == Open
    case CountdownTick(_) => s.countdown.Some?
    case ConnectionStateChange(_) => s.pc.Some?
    case IceStateChange(_) => s.pc.Some?
    case IceCheckTimer => |s.iceChecks| > 0
    case OfferCheckTimer => |s.offerChecks| > 0
    case Track => s.pc.Some?
    case LocalCandidate(_) => s.pc.Some?
  }

  function Step(s: Session, e: Event): Session
    requires Enabled(s, e)
  {
    match e
    case UserStart => Launch(s, s.status, s.isConnecting)
    case UserStop => Stop(s)
    case UserCancel => s.(countdown := None)
    case SocketOpen(offer) =>
      (match offer
       case Ok => s.(ws := Open, outbox := s.outbox + [OfferSent], offerChecks := s.offerChecks + [s.seenStatus])
       case Err(m) => s.(ws := Open, error := Some(OfferFailedPrefix + m), status := Failed, isConnecting := false))
    case SocketError => SocketFailure(s)
    case SocketClose => AfterClose(s.(ws := Closed), s.seenStatus)
    case ClosedSocketEvents =>
      var c := s.closing[0];
      var s1 := s.(closing := s.closing[1..]);
      AfterClose(if c.wasOpening then SocketFailure(s1) else s1, c.seen)
    case ReconnectTimer =>
      var seen := s.reconnectTimers[0];
      var s1 := s.(reconnectTimers := s.reconnectTimers[1..]);
      if seen != Stopped then Launch(s1, seen, false) else s1
    case Answer(remote, accepts) => OnAnswer(s, remote, accepts)
    case RemoteCandidate(c, ok) => OnRemoteCandidate(s, c, ok)
    case StatusMessage(text) => s.(serverStatus := Some(text), error := None)
    case ErrorMessage(text) => s.(error := Some(ServerErrorPrefix + text), status := Failed, isConnecting := false)
    case AirplayDisconnected => s.(serverStatus := Some(PhoneDisconnectedNotice), status := Disconnected)
    case AirplayReconnecting => s.(serverStatus := Some(PhoneReconnectingNotice), status := Connecting, error := None)
    case WebrtcReady => s.(serverStatus := Some(WebrtcReadyNotice), status := Connected, error := None)
    case ReconnectionReady => ReconnectSignal(s, NoReconnectNeededNotice, ReconnectScheduledNotice)
    case WindowChanged => ReconnectSignal(s, NoWindowReconnectNeededNotice, WindowReconnectScheduledNotice)
    case UnreadableMessage(reason) => s.(error := Some(SignalingErrorPrefix + reason))
    case CountdownTick(offer) => Tick(s, offer)
    case ConnectionStateChange(st) => SetConnectionState(s, st)
    case IceStateChange(st) => SetIceState(s, st)
    case IceCheckTimer => IceCheck(s.(iceChecks := s.iceChecks[1..]), s.iceChecks[0])
    case OfferCheckTimer => OfferCheck(s.(offerChecks := s.offerChecks[1..]), s.offerChecks[0])
    case Track => s.(videoTracks := s.videoTracks + 1)
    case LocalCandidate(c) => OnLocalCandidate(s, c)
  }

  /** The state after delivering `trace` from `s`, or None when some event of
      it is not enabled where it is delivered. */
  function Run(s: Session, trace: seq<Event>): Option<Session>
    decreases |trace|
  {
    if |trace| == 0 then Some(s)
    else if !Enabled(s, trace[0]) then None
    else Run(Step(s, trace[0]), trace[1..])
  }

  // ---------------------------------------------------------------------------
  // The invariant
  // ---------------------------------------------------------------------------

  predicate NoMdnsSent(outbox: seq<Outgoing>)
  {
    forall i :: 0 <= i < |outbox| && outbox[i].CandidateSent? ==> !Contains(outbox[i].candidate, MdnsMarker)
  }

  /** What every reachable state satisfies. */
  predicate Inv(s: Session)
  {
    // wsRef and pcRef are set and cleared together
    (s.ws == NoSocket <==> s.pc.None?)
    // candidates wait in the queue only while the remote description is unset ...
    && (s.pc.Some? && s.pc.value.remoteSet ==> s.pending == [])
    // ... and none is applied before it is set
    && (s.pc.Some? && !s.pc.value.remoteSet ==> s.pc.value.applied == [])
    && (s.countdown.Some? ==> 1 <= s.countdown.value <= CountdownSeconds)
    && NoMdnsSent(s.outbox)
    && ((s.status == Stopped || s.status == Failed) ==> !s.isConnecting)
    && TimersWillFire(s.reconnectTimers)
  }

  /** A reconnect timer is armed only by handlers that will act on it. */
  predicate TimersWillFire(timers: seq<Status>)
  {
    forall i :: 0 <= i < |timers| ==> timers[i] != Stopped
  }

  lemma InitialInv()
    ensures Inv(Initial)
  {
  }

  lemma {:induction false} NoMdnsSentAppend(outbox: seq<Outgoing>, m: Outgoing)
    requires NoMdnsSent(outbox)
    requires m.CandidateSent? ==> !Contains(m.candidate, MdnsMarker)
    ensures NoMdnsSent(outbox + [m])
  {
    forall i | 0 <= i < |outbox + [m]| && (outbox + [m])[i].CandidateSent?
      ensures !Contains((outbox + [m])[i].candidate, MdnsMarker)
    {
      if i < |outbox| {
        assert (outbox + [m])[i] == outbox[i];
      }
    }
  }

  lemma {:induction false} LaunchInv(s: Session, seen: Status, connecting: bool)
    requires Inv(s)
    ensures Inv(Launch(s, seen, connecting))
  {
  }

  lemma {:induction false} ReuseInv(s: Session, seen: Status, offer: Outcome)
    requires Inv(s)
    ensures Inv(Reuse(s, seen, offer))
  {
    if s.ws == Open && offer.Ok? {
      NoMdnsSentAppend(s.outbox, OfferSent);
    }
  }

  lemma {:induction false} UserStepInv(s: Session, e: Event)
    requires Inv(s) && Enabled(s, e)
    requires e.UserStart? || e.UserStop? || e.UserCancel?
    ensures Inv(Step(s, e))
  {
  }

  lemma {:induction false} SocketOpenInv(s: Session, offer: Outcome)
    requires Inv(s) && Enabled(s, SocketOpen(offer))
    ensures Inv(Step(s, SocketOpen(offer)))
  {
    if offer.Ok? { NoMdnsSentAppend(s.outbox, OfferSent); }
  }

  lemma {:induction false} SocketLossInv(s: Session, e: Event)
    requires Inv(s) && Enabled(s, e)
    requires e.SocketError? || e.SocketClose? || e.ClosedSocketEvents?
    ensures Inv(Step(s, e))
  {
    if e.ClosedSocketEvents? {
      var s1 := s.(closing := s.closing[1..]);
      assert Inv(s1);
    }
  }

  lemma {:induction false} ReconnectTimerInv(s: Session)
    requires Inv(s) && Enabled(s, ReconnectTimer)
    ensures Inv(Step(s, ReconnectTimer))
  {
    var s1 := s.(reconnectTimers := s.reconnectTimers[1..]);
    assert Inv(s1);
    LaunchInv(s1, s.reconnectTimers[0], false);
  }

  lemma {:induction false} CandidateMessageInv(s: Session, e: Event)
    requires Inv(s) && Enabled(s, e)
    requires e.Answer? || e.RemoteCandidate?
    ensures Inv(Step(s, e))
  {
  }

  lemma {:induction false} TextMessageInv(s: Session, e: Event)
    requires Inv(s) && Enabled(s, e)
    requires e.StatusMessage? || e.ErrorMessage? || e.AirplayDisconnected? || e.AirplayReconnecting?
          || e.WebrtcReady? || e.UnreadableMessage?
    ensures Inv(Step(s, e))
  {
  }

  lemma {:induction false} SignalMessageInv(s: Session, e: Event)
    requires Inv(s) && Enabled(s, e)
    requires e.ReconnectionReady? || e.WindowChanged?
    ensures Inv(Step(s, e))
  {
  }

  lemma {:induction false} ConnectionStateInv(s: Session, st: PeerState)
    requires Inv(s) && s.pc.Some?
    ensures Inv(SetConnectionState(s, st))
  {
    var s1 := s.(pc := Some(s.pc.value.(conn := st)));
    assert Inv(s1);
  }

  lemma {:induction false} PeerStepInv(s: Session, e: Event)
    requires Inv(s) && Enabled(s, e)
    requires e.ConnectionStateChange? || e.IceStateChange? || e.Track? || e.LocalCandidate?
    ensures Inv(Step(s, e))
  {
    if e.ConnectionStateChange? {
      ConnectionStateInv(s, e.state);
    } else if e.IceStateChange? {
      var s1 := s.(pc := Some(s.pc.value.(ice := e.iceState)));
      assert Inv(s1);
    } else if e.LocalCandidate? {
      var c := e.gathered;
      if c.Some? && s.ws == Open && !Contains(c.value, MdnsMarker) {
        NoMdnsSentAppend(s.outbox, CandidateSent(c.value));
      }
    }
  }

  lemma {:induction false} TickInv(s: Session, offer: Outcome)
    requires Inv(s) && Enabled(s, CountdownTick(offer))
    ensures Inv(Step(s, CountdownTick(offer)))
  {
    if s.countdown.value - 1 <= 0 {
      ReuseInv(s.(countdown := None), s.countdownSeen, offer);
    }
  }

  lemma {:induction false} CheckTimerInv(s: Session, e: Event)
    requires Inv(s) && Enabled(s, e)
    requires e.IceCheckTimer? || e.OfferCheckTimer?
    ensures Inv(Step(s, e))
  {
  }

  lemma {:induction false} StepPreservesInv(s: Session, e: Event)
    requires Inv(s) && Enabled(s, e)
    ensures Inv(Step(s, e))
  {
    match e
    case UserStart => UserStepInv(s, e);
    case UserStop => UserStepInv(s, e);
    case UserCancel => UserStepInv(s, e);
    case SocketOpen(offer) => SocketOpenInv(s, offer);
    case SocketError => SocketLossInv(s, e);
    case SocketClose => SocketLossInv(s, e);
    case ClosedSocketEvents => SocketLossInv(s, e);
    case ReconnectTimer => ReconnectTimerInv(s);
    case CountdownTick(offer) => TickInv(s, offer);
    case IceCheckTimer => CheckTimerInv(s, e);
    case OfferCheckTimer => CheckTimerInv(s, e);
    case Answer(_, _) => CandidateMessageInv(s, e);
    case RemoteCandidate(_, _) => CandidateMessageInv(s, e);
    case ReconnectionReady => SignalMessageInv(s, e);
    case WindowChanged => SignalMessageInv(s, e);
    case ConnectionStateChange(_) => PeerStepInv(s, e);
    case IceStateChange(_) => PeerStepInv(s, e);
    case Track => PeerStepInv(s, e);
    case LocalCandidate(_) => PeerStepInv(s, e);
    case _ => TextMessageInv(s, e);
  }

  /** Every state reached from an invariant state by enabled events keeps the
      invariant; in particular no ".local" candidate is ever sent. */
  lemma {:induction false} RunPreservesInv(s: Session, trace: seq<Event>)
    requires Inv(s)
    ensures Run(s, trace).Some? ==> Inv(Run(s, trace).value)
    decreases |trace|
  {
    if |trace| > 0 && Enabled(s, trace[0]) {
      StepPreservesInv(s, trace[0]);
      RunPreservesInv(Step(s, trace[0]), trace[1..]);
    }
  }
}
