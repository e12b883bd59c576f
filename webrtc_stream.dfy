/** The `WebRTCStream` component as an object: its React state and refs are
    fields, and each handler is a method that updates them in place. Every
    method is proved to perform exactly the transition `SessionMachine.Step`
    describes for its event, and to keep `SessionMachine.Inv`. */
module WebRTCStream {
  import opened Common
  import opened SessionMachine

  /** The drain loop of the 'answer' handler: each queued candidate is
      passed to `addIceCandidate` in arrival order, and the ones it accepts
      join those already applied. */
  method ApplyQueued(applied: seq<string>, queue: seq<string>, accepts: seq<bool>) returns (r: seq<string>)
    requires |accepts| == |queue|
    ensures r == applied + Accepted(queue, accepts)
  {
    r := applied;
    var i := 0;
    while i < |queue|
      invariant 0 <= i <= |queue|
      invariant r == applied + Accepted(queue[..i], accepts[..i])
    {
      assert queue[..i + 1][..i] == queue[..i];
      assert accepts[..i + 1][..i] == accepts[..i];
      if accepts[i] {
        r := r + [queue[i]];
      }
      i := i + 1;
    }
    assert queue[..|queue|] == queue;
    assert accepts[..|accepts|] == accepts;
  }

  class StreamController {
    // React state
    var status: Status
    var isConnecting: bool
    var error: Option<string>
    var serverStatus: Option<string>
    var countdown: Option<nat>
    // refs
    var pending: seq<string>
    var pc: Option<Peer>
    var ws: Socket
    var videoTracks: nat
    var outbox: seq<Outgoing>
    // what the armed closures captured
    var seenStatus: Status
    var countdownSeen: Status
    var closing: seq<ClosingSocket>
    var reconnectTimers: seq<Status>
    var iceChecks: seq<Status>
    var offerChecks: seq<Status>

    ghost function View(): Session
      reads this
    {
      Session(status, isConnecting, error, serverStatus, countdown, countdownSeen, pending, pc, ws,
              seenStatus, closing, reconnectTimers, iceChecks, offerChecks, videoTracks, outbox)
    }

    ghost predicate Valid()
      reads this
    {
      Inv(View())
    }

    /** The component as first rendered: stopped, nothing open. */
    constructor ()
      ensures Valid() && View() == Initial
    {
      status, isConnecting, error, serverStatus, countdown := Stopped, false, None, None, None;
      pending, pc, ws, videoTracks, outbox := [], None, NoSocket, 0, [];
      seenStatus, countdownSeen := Stopped, Stopped;
      closing, reconnectTimers, iceChecks, offerChecks := [], [], [], [];
    }

    // -------------------------------------------------------------------------
    // The component's own functions
    // -------------------------------------------------------------------------

    /** `startWebRTC` as run by a closure whose `isConnecting` reads
        `connecting` and whose new handlers will capture `seen`. */
    method StartWebRTC(seen: Status, connecting: bool)
      modifies this
      ensures View() == Launch(old(View()), seen, connecting)
    {
      if connecting {
        return;
      }
      isConnecting := true;
      status := Connecting;
      error := None;
      ws := Opening;
      pc := Some(FreshPeer(FullStart));
      seenStatus := seen;
    }

    /** `startWebRTCWithExistingSocket`. */
    method StartWithExistingSocket(seen: Status, offer: Outcome)
      modifies this
      ensures View() == Reuse(old(View()), seen, offer)
    {
      if ws != Open {
        StartWebRTC(seen, false);
        return;
      }
      isConnecting := true;
      status := Connecting;
      error := None;
      pc := Some(FreshPeer(AutoReconnect));
      match offer {
        case Ok =>
          outbox := outbox + [OfferSent];
        case Err(m) =>
          error := Some(AutoReconnectFailedPrefix + m);
          status := Failed;
          isConnecting := false;
      }
    }

    /** `websocket.onclose` of handlers that captured `seen`. */
    method HandleClose(seen: Status)
      modifies this
      ensures View() == AfterClose(old(View()), seen)
    {
      if seen != Stopped {
        status := Disconnected;
        isConnecting := false;
        reconnectTimers := reconnectTimers + [seen];
      }
    }

    /** `startAutoReconnectCountdown` behind a reconnect signal. */
    method HandleReconnectSignal(liveText: string, goText: string)
      modifies this
      ensures View() == ReconnectSignal(old(View()), liveText, goText)
    {
      if IsLive(pc, seenStatus, videoTracks) {
        serverStatus := Some(liveText);
      } else {
        serverStatus := Some(goText);
        status := ReadyForReconnect;
        error := None;
        countdown := Some(CountdownSeconds);
        countdownSeen := seenStatus;
      }
    }

    // -------------------------------------------------------------------------
    // Buttons
    // -------------------------------------------------------------------------

    method ClickStart()
      requires Valid() && Enabled(View(), UserStart)
      modifies this
      ensures Valid() && View() == Step(old(View()), UserStart)
    {
      ghost var v0 := View();
      StartWebRTC(status, isConnecting);
      ghost var v1 := Step(v0, UserStart);
      assert View() == v1;
      StepPreservesInv(v0, UserStart);
    }

    /** The Stop button. */
    method ClickStop()
      requires Valid() && Enabled(View(), UserStop)
      modifies this
      ensures Valid() && View() == Step(old(View()), UserStop)
    {
      ghost var v0 := View();
      StopWebRTC();
      assert View() == Stop(v0);
      ghost var v1 := Step(v0, UserStop);
      assert View() == v1;
      StepPreservesInv(v0, UserStop);
    }

    /** `stopWebRTC`: cancel the countdown, reset the state, empty the queue,
        detach the video and close the socket and the peer connection. */
    method StopWebRTC()
      modifies this
      ensures countdown.None? && !isConnecting && status == Stopped && error.None? && serverStatus.None?
      ensures pending == [] && videoTracks == 0 && ws == NoSocket && pc.None?
      ensures closing == ClosingAfterStop(old(closing), old(ws), old(seenStatus))
      ensures unchanged(this`outbox, this`seenStatus, this`countdownSeen, this`reconnectTimers,
                        this`iceChecks, this`offerChecks)
    {
      var closed := ClosingAfterStop(closing, ws, seenStatus);
      countdown, isConnecting, status, error, serverStatus, pending, videoTracks, closing, ws, pc
        := None, false, Stopped, None, None, [], 0, closed, NoSocket, None;
    }

    method CancelAutoReconnect()
      requires Valid() && Enabled(View(), UserCancel)
      modifies this
      ensures Valid() && View() == Step(old(View()), UserCancel)
    {
      countdown := None;
    }

    // -------------------------------------------------------------------------
    // Socket events and the reconnect timer
    // -------------------------------------------------------------------------

    method OnSocketOpen(offer: Outcome)
      requires Valid() && Enabled(View(), SocketOpen(offer))
      modifies this
      ensures Valid() && View() == Step(old(View()), SocketOpen(offer))
    {
      ghost var v0 := View();
      ws := Open;
      match offer {
        case Ok =>
          outbox := outbox + [OfferSent];
          offerChecks := offerChecks + [seenStatus];
        case Err(m) =>
          error := Some(OfferFailedPrefix + m);
          status := Failed;
          isConnecting := false;
      }
      ghost var v1 := Step(v0, SocketOpen(offer));
      assert View() == v1;
      StepPreservesInv(v0, SocketOpen(offer));
    }

    method OnSocketError()
      requires Valid() && Enabled(View(), SocketError)
      modifies this
      ensures Valid() && View() == Step(old(View()), SocketError)
    {
      error := Some(SocketFailedText);
      status := Failed;
      isConnecting := false;
    }

    method OnSocketClose()
      requires Valid() && Enabled(View(), SocketClose)
      modifies this
      ensures Valid() && View() == Step(old(View()), SocketClose)
    {
      ghost var v0 := View();
      ws := Closed;
      HandleClose(seenStatus);
      ghost var v1 := Step(v0, SocketClose);
      assert View() == v1;
      StepPreservesInv(v0, SocketClose);
    }

    /** The error (for a socket still connecting) and close events of a
        socket that Stop closed. */
    method OnClosedSocketEvents()
      requires Valid() && Enabled(View(), ClosedSocketEvents)
      modifies this
      ensures Valid() && View() == Step(old(View()), ClosedSocketEvents)
    {
      ghost var v0 := View();
      var c := closing[0];
      closing := closing[1..];
      if c.wasOpening {
        error := Some(SocketFailedText);
        status := Failed;
        isConnecting := false;
      }
      HandleClose(c.seen);
      ghost var v1 := Step(v0, ClosedSocketEvents);
      assert View() == v1;
      StepPreservesInv(v0, ClosedSocketEvents);
    }

    method OnReconnectTimer()
      requires Valid() && Enabled(View(), ReconnectTimer)
      modifies this
      ensures Valid() && View() == Step(old(View()), ReconnectTimer)
    {
      ghost var v0 := View();
      var seen := reconnectTimers[0];
      reconnectTimers := reconnectTimers[1..];
      if seen != Stopped {
        StartWebRTC(seen, false);
      }
      ghost var v1 := Step(v0, ReconnectTimer);
      assert View() == v1;
      StepPreservesInv(v0, ReconnectTimer);
    }

    // -------------------------------------------------------------------------
    // Signalling messages
    // -------------------------------------------------------------------------

    /** 'answer': set the remote description, then drain the queue of
        candidates that arrived before it, one at a time. */
    method OnAnswer(remote: Outcome, accepts: seq<bool>)
      requires Valid() && Enabled(View(), Answer(remote, accepts))
      modifies this
      ensures Valid() && View() == Step(old(View()), Answer(remote, accepts))
    {
      ghost var v0 := View();
      if pc.None? {
        return;
      }
      match remote {
        case Err(m) =>
          error := Some(SignalingErrorPrefix + m);
        case Ok =>
          var peer := pc.value.(remoteSet := true);
          if |pending| > 0 {
            var applied := ApplyQueued(peer.applied, pending, accepts);
            peer := peer.(applied := applied);
            pending := [];
          }
          pc := Some(peer);
      }
      ghost var v1 := Step(v0, Answer(remote, accepts));
      assert View() == v1;
      StepPreservesInv(v0, Answer(remote, accepts));
    }

    /** 'ice-candidate': queue before the remote description, apply after. */
    method OnRemoteCandidate(c: string, accepted: bool)
      requires Valid() && Enabled(View(), RemoteCandidate(c, accepted))
      modifies this
      ensures Valid() && View() == Step(old(View()), RemoteCandidate(c, accepted))
    {
      ghost var v0 := View();
      if pc.None? {
        return;
      }
      if !pc.value.remoteSet {
        pending := pending + [c];
      } else if accepted {
        pc := Some(pc.value.(applied := pc.value.applied + [c]));
      }
      ghost var v1 := Step(v0, RemoteCandidate(c, accepted));
      assert View() == v1;
      StepPreservesInv(v0, RemoteCandidate(c, accepted));
    }

    method OnStatusMessage(text: string)
      requires Valid() && Enabled(View(), StatusMessage(text))
      modifies this
      ensures Valid() && View() == Step(old(View()), StatusMessage(text))
    {
      serverStatus := Some(text);
      error := None;
    }

    method OnErrorMessage(text: string)
      requires Valid() && Enabled(View(), ErrorMessage(text))
      modifies this
      ensures Valid() && View() == Step(old(View()), ErrorMessage(text))
    {
      error := Some(ServerErrorPrefix + text);
      status := Failed;
      isConnecting := false;
    }

    /** 'airplay_disconnected' keeps `isConnecting` as it is. */
    method OnAirplayDisconnected()
      requires Valid() && Enabled(View(), AirplayDisconnected)
      modifies this
      ensures Valid() && View() == Step(old(View()), AirplayDisconnected)
    {
      serverStatus := Some(PhoneDisconnectedNotice);
      status := Disconnected;
    }

    method OnAirplayReconnecting()
      requires Valid() && Enabled(View(), AirplayReconnecting)
      modifies this
      ensures Valid() && View() == Step(old(View()), AirplayReconnecting)
    {
      serverStatus := Some(PhoneReconnectingNotice);
      status := Connecting;
      error := None;
    }

    method OnWebrtcReady()
      requires Valid() && Enabled(View(), WebrtcReady)
      modifies this
      ensures Valid() && View() == Step(old(View()), WebrtcReady)
    {
      serverStatus := Some(WebrtcReadyNotice);
      status := Connected;
      error := None;
    }

    method OnReconnectionReady()
      requires Valid() && Enabled(View(), ReconnectionReady)
      modifies this
      ensures Valid() && View() == Step(old(View()), ReconnectionReady)
    {
      ghost var v0 := View();
      HandleReconnectSignal(NoReconnectNeededNotice, ReconnectScheduledNotice);
      ghost var v1 := Step(v0, ReconnectionReady);
      assert View() == v1;
      StepPreservesInv(v0, ReconnectionReady);
    }

    method OnWindowChanged()
      requires Valid() && Enabled(View(), WindowChanged)
      modifies this
      ensures Valid() && View() == Step(old(View()), WindowChanged)
    {
      ghost var v0 := View();
      HandleReconnectSignal(NoWindowReconnectNeededNotice, WindowReconnectScheduledNotice);
      ghost var v1 := Step(v0, WindowChanged);
      assert View() == v1;
      StepPreservesInv(v0, WindowChanged);
    }

    method OnUnreadableMessage(reason: string)
      requires Valid() && Enabled(View(), UnreadableMessage(reason))
      modifies this
      ensures Valid() && View() == Step(old(View()), UnreadableMessage(reason))
    {
      error := Some(SignalingErrorPrefix + reason);
    }

    // -------------------------------------------------------------------------
    // Timers of the component
    // -------------------------------------------------------------------------

    /** One second of `startAutoReconnectCountdown`. */
    method OnCountdownTick(offer: Outcome)
      requires Valid() && Enabled(View(), CountdownTick(offer))
      modifies this
      ensures Valid() && View() == Step(old(View()), CountdownTick(offer))
    {
      ghost var v0 := View();
      var left := countdown.value - 1;
      if left <= 0 {
        countdown := None;
        if IsLive(pc, countdownSeen, videoTracks) {
          serverStatus := Some(CountdownCancelledNotice);
        } else {
          StartWithExistingSocket(countdownSeen, offer);
        }
      } else {
        countdown := Some(left);
      }
      ghost var v1 := Step(v0, CountdownTick(offer));
      assert View() == v1;
      StepPreservesInv(v0, CountdownTick(offer));
    }

    method OnIceCheckTimer()
      requires Valid() && Enabled(View(), IceCheckTimer)
      modifies this
      ensures Valid() && View() == Step(old(View()), IceCheckTimer)
    {
      ghost var v0 := View();
      var seen := iceChecks[0];
      iceChecks := iceChecks[1..];
      if pc.Some? && pc.value.conn == PeerConnected && seen != Connected {
        status := Connected;
        error := None;
        isConnecting := false;
      }
      ghost var v1 := Step(v0, IceCheckTimer);
      assert View() == v1;
      StepPreservesInv(v0, IceCheckTimer);
    }

    method OnOfferCheckTimer()
      requires Valid() && Enabled(View(), OfferCheckTimer)
      modifies this
      ensures Valid() && View() == Step(old(View()), OfferCheckTimer)
    {
      ghost var v0 := View();
      var seen := offerChecks[0];
      offerChecks := offerChecks[1..];
      RunOfferCheck(seen);
      ghost var v1 := Step(v0, OfferCheckTimer);
      assert View() == v1;
      StepPreservesInv(v0, OfferCheckTimer);
    }

    /** The body of the 3 s timer, with the status its closure captured. */
    method RunOfferCheck(seen: Status)
      modifies this
      ensures View() == OfferCheck(old(View()), seen)
    {
      if pc.Some? {
        if pc.value.conn == PeerConnected && seen != Connected {
          status, error, isConnecting, serverStatus := Connected, None, false, Some(AutoCorrectedNotice);
        } else if pc.value.ice == IceConnected && pc.value.conn != PeerFailed && seen == Connecting {
          status, error, isConnecting, serverStatus := Connected, None, false, Some(IceReadyNotice);
        }
      }
    }

    // -------------------------------------------------------------------------
    // Peer-connection events
    // -------------------------------------------------------------------------

    method OnConnectionStateChange(st: PeerState)
      requires Valid() && Enabled(View(), ConnectionStateChange(st))
      modifies this
      ensures Valid() && View() == Step(old(View()), ConnectionStateChange(st))
    {
      ghost var v0 := View();
      ApplyConnectionState(st);
      ghost var v1 := Step(v0, ConnectionStateChange(st));
      assert View() == v1;
      StepPreservesInv(v0, ConnectionStateChange(st));
    }

    /** The `onconnectionstatechange` handler of the current peer connection;
        the reduced handlers leave `isConnecting` set on connected and ignore
        connecting. */
    method ApplyConnectionState(st: PeerState)
      requires pc.Some?
      modifies this
      ensures View() == SetConnectionState(old(View()), st)
    {
      var full := pc.value.handlers == FullStart;
      pc := Some(pc.value.(conn := st));
      match st {
        case PeerConnected =>
          status, error, serverStatus := Connected, None, None;
          if full {
            isConnecting := false;
          }
        case PeerFailed =>
          status, error, isConnecting := Failed, Some(ConnectionFailedText), false;
        case PeerDisconnected =>
          status, error, isConnecting := Failed, Some(ConnectionFailedText), false;
        case PeerClosed =>
          status, isConnecting := Stopped, false;
        case PeerConnecting =>
          if full {
            status := Connecting;
          }
        case PeerNew =>
      }
    }

    method OnIceStateChange(st: IceState)
      requires Valid() && Enabled(View(), IceStateChange(st))
      modifies this
      ensures Valid() && View() == Step(old(View()), IceStateChange(st))
    {
      ghost var v0 := View();
      var full := pc.value.handlers == FullStart;
      pc := Some(pc.value.(ice := st));
      if st == IceFailed {
        error := Some(IceFailedText);
      } else if st == IceConnected && full {
        iceChecks := iceChecks + [seenStatus];
      }
      ghost var v1 := Step(v0, IceStateChange(st));
      assert View() == v1;
      StepPreservesInv(v0, IceStateChange(st));
    }

    method OnTrack()
      requires Valid() && Enabled(View(), Track)
      modifies this
      ensures Valid() && View() == Step(old(View()), Track)
    {
      videoTracks := videoTracks + 1;
    }

    /** `onicecandidate`: mDNS candidates are never sent. */
    method OnLocalCandidate(c: Option<string>)
      requires Valid() && Enabled(View(), LocalCandidate(c))
      modifies this
      ensures Valid() && View() == Step(old(View()), LocalCandidate(c))
    {
      ghost var v0 := View();
      if c.Some? && ws == Open && !Contains(c.value, MdnsMarker) {
        outbox := outbox + [CandidateSent(c.value)];
      }
      ghost var v1 := Step(v0, LocalCandidate(c));
      assert View() == v1;
      StepPreservesInv(v0, LocalCandidate(c));
    }
  }
}
