/** What the signalling state machine of `WebRTCStream.jsx` promises, stated
    about `SessionMachine.Step`. */
module SessionProperties {
  import opened Common
  import opened SessionMachine

  // ---------------------------------------------------------------------------
  // Start
  // ---------------------------------------------------------------------------

  /** `startWebRTC` does nothing while its `isConnecting` reads true; otherwise
      it marks the session connecting, clears the error and opens a socket and a
      peer connection whose handlers capture `seen`. Nothing else changes. */
  lemma LaunchEffect(s: Session, seen: Status, connecting: bool)
    ensures connecting ==> Launch(s, seen, connecting) == s
    ensures !connecting ==>
      var r := Launch(s, seen, connecting);
      r.isConnecting && r.status == Connecting && r.error.None?
      && r.ws == Opening && r.pc == Some(FreshPeer(FullStart)) && r.seenStatus == seen
      && r.pending == s.pending && r.countdown == s.countdown && r.outbox == s.outbox
      && r.serverStatus == s.serverStatus && r.videoTracks == s.videoTracks
  {
  }

  /** A click on Start captures the status shown at the click. */
  lemma UserStartCapturesStatus(s: Session)
    requires Enabled(s, UserStart)
    ensures Step(s, UserStart) == Launch(s, s.status, false)
    ensures Step(s, UserStart).seenStatus == s.status
  {
  }

  /** The 2 s reconnect timer restarts through the captured `startWebRTC`,
      whose guard read `isConnecting == false`: it relaunches even while the
      live flag is set. */
  lemma ReconnectTimerIgnoresLiveFlag(s: Session)
    requires Inv(s) && Enabled(s, ReconnectTimer)
    ensures Step(s, ReconnectTimer).ws == Opening
    ensures Step(s, ReconnectTimer).isConnecting
    ensures Step(s, ReconnectTimer).seenStatus == s.reconnectTimers[0]
    ensures Step(s, ReconnectTimer).reconnectTimers == s.reconnectTimers[1..]
  {
  }

  // ---------------------------------------------------------------------------
  // ICE candidates from the server
  // ---------------------------------------------------------------------------

  /** Before the remote description is set a candidate is queued and not
      applied; afterwards it is applied at once, and a failed apply changes
      nothing (it is not fatal). */
  lemma RemoteCandidateQueuedUntilDescription(s: Session, c: string, ok: bool)
    requires Inv(s) && Enabled(s, RemoteCandidate(c, ok)) && s.pc.Some?
    ensures var r := Step(s, RemoteCandidate(c, ok));
      if !s.pc.value.remoteSet
      then r.pending == s.pending + [c] && r.pc == s.pc
      else r.pending == [] && r.pc.Some? && r.pc.value.remoteSet
           && r.pc.value.applied == s.pc.value.applied + (if ok then [c] else [])
           && r.status == s.status && r.error == s.error && r.isConnecting == s.isConnecting
  {
  }

  /** Positions of the successful `addIceCandidate` calls, in order. */
  function AcceptedIndices(accepts: seq<bool>): (r: seq<nat>)
    ensures forall k :: 0 <= k < |r| ==> r[k] < |accepts| && accepts[r[k]]
    ensures forall k, l :: 0 <= k < l < |r| ==> r[k] < r[l]
    ensures forall i :: 0 <= i < |accepts| && accepts[i] ==> i in r
  {
    if |accepts| == 0 then []
    else
      var n := |accepts| - 1;
      AcceptedIndices(accepts[..n]) + (if accepts[n] then [n] else [])
  }

  /** The drained candidates that got applied are exactly the queued ones
      whose apply succeeded, each once and in arrival order. */
  lemma {:induction false} AcceptedInOrder(cands: seq<string>, accepts: seq<bool>)
    requires |accepts| == |cands|
    ensures |Accepted(cands, accepts)| == |AcceptedIndices(accepts)|
    ensures forall k :: 0 <= k < |AcceptedIndices(accepts)| ==>
      Accepted(cands, accepts)[k] == cands[AcceptedIndices(accepts)[k]]
    decreases |cands|
  {
    if |cands| > 0 {
      var n := |cands| - 1;
      AcceptedInOrder(cands[..n], accepts[..n]);
      var prev := Accepted(cands[..n], accepts[..n]);
      var idx := AcceptedIndices(accepts[..n]);
      assert Accepted(cands, accepts) == prev + (if accepts[n] then [cands[n]] else []);
      assert AcceptedIndices(accepts) == idx + (if accepts[n] then [n] else []);
      forall k | 0 <= k < |idx|
        ensures idx[k] < n && cands[..n][idx[k]] == cands[idx[k]]
      {
      }
    }
  }

  /** When every apply succeeds the whole queue is applied as it stood. */
  lemma {:induction false} AcceptedAll(cands: seq<string>, accepts: seq<bool>)
    requires |accepts| == |cands|
    requires forall i :: 0 <= i < |accepts| ==> accepts[i]
    ensures Accepted(cands, accepts) == cands
    decreases |cands|
  {
    if |cands| > 0 {
      var n := |cands| - 1;
      AcceptedAll(cands[..n], accepts[..n]);
      assert cands[..n] + [cands[n]] == cands;
    }
  }

  /** On 'answer' the remote description is set, the queued candidates are
      applied in order (failures skipped) and the queue is emptied. */
  lemma AnswerDrainsQueue(s: Session, accepts: seq<bool>)
    requires Inv(s) && Enabled(s, Answer(Ok, accepts)) && s.pc.Some?
    ensures var r := Step(s, Answer(Ok, accepts));
      r.pc.Some? && r.pc.value.remoteSet && r.pending == []
      && r.pc.value.applied == s.pc.value.applied + Accepted(s.pending, accepts)
      && r.status == s.status && r.isConnecting == s.isConnecting
  {
  }

  // ---------------------------------------------------------------------------
  // Peer-connection callbacks
  // ---------------------------------------------------------------------------

  /** The connectionState callback: connected clears the error and the server
      text (and `isConnecting`, with the full-start handlers); failed and
      disconnected fail; closed stops; connecting shows connecting (full-start
      handlers only). The socket, the queue and the countdown are untouched. */
  lemma ConnectionStateMapping(s: Session, st: PeerState)
    requires Enabled(s, ConnectionStateChange(st))
    ensures var r := Step(s, ConnectionStateChange(st));
      var full := s.pc.value.handlers == FullStart;
      r.pc == Some(s.pc.value.(conn := st))
      && r.ws == s.ws && r.pending == s.pending && r.countdown == s.countdown && r.outbox == s.outbox
      && (st == PeerConnected ==>
            r.status == Connected && r.error.None? && r.serverStatus.None?
            && r.isConnecting == (if full then false else s.isConnecting))
      && ((st == PeerFailed || st == PeerDisconnected) ==>
            r.status == Failed && r.error == Some(ConnectionFailedText) && !r.isConnecting)
      && (st == PeerClosed ==> r.status == Stopped && !r.isConnecting && r.error == s.error)
      && (st == PeerConnecting ==>
            r.status == (if full then Connecting else s.status) && r.isConnecting == s.isConnecting)
      && (st == PeerNew ==> r.status == s.status && r.isConnecting == s.isConnecting)
  {
  }

  /** ICE failure only sets the error; ICE connected arms the 1 s check with
      the captured status, on full-start handlers only. */
  lemma IceStateMapping(s: Session, st: IceState)
    requires Enabled(s, IceStateChange(st))
    ensures var r := Step(s, IceStateChange(st));
      r.pc == Some(s.pc.value.(ice := st)) && r.status == s.status && r.isConnecting == s.isConnecting
      && r.error == (if st == IceFailed then Some(IceFailedText) else s.error)
      && r.iceChecks == (if st == IceConnected && s.pc.value.handlers == FullStart
                         then s.iceChecks + [s.seenStatus] else s.iceChecks)
  {
  }

  /** The 1 s check changes the status only to connected, and only when the
      peer connection reports connected. */
  lemma IceCheckOnlyConnects(s: Session)
    requires Enabled(s, IceCheckTimer)
    ensures var r := Step(s, IceCheckTimer);
      r.status == s.status
      || (r.status == Connected && s.pc.Some? && s.pc.value.conn == PeerConnected && s.iceChecks[0] != Connected)
    ensures Step(s, IceCheckTimer).pc == s.pc && Step(s, IceCheckTimer).ws == s.ws
  {
  }

  /** The 3 s check changes the status only to connected: when the peer
      connection reports connected, or when ICE is connected, the connection
      has not failed and the captured status is connecting. */
  lemma OfferCheckOnlyConnects(s: Session)
    requires Enabled(s, OfferCheckTimer)
    ensures var r := Step(s, OfferCheckTimer);
      var seen := s.offerChecks[0];
      r.status == s.status
      || (r.status == Connected && s.pc.Some? && !r.isConnecting && r.error.None?
          && ((s.pc.value.conn == PeerConnected && seen != Connected
               && r.serverStatus == Some(AutoCorrectedNotice))
              || (s.pc.value.ice == IceConnected && s.pc.value.conn != PeerFailed && seen == Connecting
                  && r.serverStatus == Some(IceReadyNotice))))
  {
  }

  // ---------------------------------------------------------------------------
  // reconnection_ready / window_changed and the countdown
  // ---------------------------------------------------------------------------

  /** While the liveness guard holds, a reconnect signal only updates the
      server text; otherwise the session shows ready_for_reconnect and a
      fresh 5 s countdown starts, capturing the handlers' status. */
  lemma ReconnectSignalGuarded(s: Session, e: Event)
    requires e == ReconnectionReady || e == WindowChanged
    requires Enabled(s, e)
    ensures var r := Step(s, e);
      if IsLive(s.pc, s.seenStatus, s.videoTracks)
      then r == s.(serverStatus := r.serverStatus) && r.serverStatus.Some?
      else r.status == ReadyForReconnect && r.error.None? && r.countdown == Some(CountdownSeconds)
           && r.countdownSeen == s.seenStatus && r.isConnecting == s.isConnecting
           && r.pc == s.pc && r.ws == s.ws
  {
  }

  /** The captured status decides whether the peer connection counts at all:
      handlers captured while the status was not connected only see the video
      tracks. */
  lemma GuardNeedsCapturedConnected(pc: Option<Peer>, seen: Status, tracks: nat)
    requires seen != Connected
    ensures IsLive(pc, seen, tracks) <==> tracks > 0
  {
  }

  /** A tick above one second only counts down. */
  lemma TickCountsDown(s: Session, offer: Outcome)
    requires Enabled(s, CountdownTick(offer)) && s.countdown.value > 1
    ensures Step(s, CountdownTick(offer)) == s.(countdown := Some(s.countdown.value - 1))
  {
  }

  /** The last tick clears the countdown; if the guard holds it only leaves a
      notice, otherwise it reuses an open socket with a reduced-handler peer
      connection or falls back to a full start. */
  lemma LastTick(s: Session, offer: Outcome)
    requires Enabled(s, CountdownTick(offer)) && s.countdown.value <= 1
    ensures var r := Step(s, CountdownTick(offer));
      r.countdown.None?
      && (IsLive(s.pc, s.countdownSeen, s.videoTracks) ==>
            r == s.(countdown := None, serverStatus := Some(CountdownCancelledNotice)))
      && (!IsLive(s.pc, s.countdownSeen, s.videoTracks) && s.ws == Open ==>
            r.ws == Open && r.pc == Some(FreshPeer(AutoReconnect))
            && r.status == (if offer.Ok? then Connecting else Failed)
            && r.isConnecting == offer.Ok?
            && r.outbox == s.outbox + (if offer.Ok? then [OfferSent] else []))
      && (!IsLive(s.pc, s.countdownSeen, s.videoTracks) && s.ws != Open ==>
            r.ws == Opening && r.pc == Some(FreshPeer(FullStart)) && r.status == Connecting
            && r.seenStatus == s.countdownSeen)
  {
  }

  /** The ticks of a countdown: `k` ticks from `n > k` seconds leave `n - k`. */
  lemma {:induction false} TicksCountDown(s: Session, offers: seq<Outcome>)
    requires s.countdown.Some? && |offers| < s.countdown.value
    ensures Run(s, seq(|offers|, i requires 0 <= i < |offers| => CountdownTick(offers[i])))
            == Some(s.(countdown := Some(s.countdown.value - |offers|)))
    decreases |offers|
  {
    var trace := seq(|offers|, i requires 0 <= i < |offers| => CountdownTick(offers[i]));
    if |offers| > 0 {
      var s1 := s.(countdown := Some(s.countdown.value - 1));
      assert Step(s, trace[0]) == s1;
      var rest := seq(|offers| - 1, i requires 0 <= i < |offers| - 1 => CountdownTick(offers[1..][i]));
      assert trace[1..] == rest;
      TicksCountDown(s1, offers[1..]);
    }
  }

  /** Cancelling only drops the countdown: the status is never changed. */
  lemma CancelKeepsStatus(s: Session)
    requires Enabled(s, UserCancel)
    ensures Step(s, UserCancel) == s.(countdown := None)
    ensures Step(s, UserCancel).status == s.status
  {
  }

  // ---------------------------------------------------------------------------
  // Stop
  // ---------------------------------------------------------------------------

  /** Stop from any state: countdown cancelled, idle and stopped, messages
      cleared, queue emptied, video detached, socket and peer connection
      dropped; a second Stop changes nothing. */
  lemma StopTearsDown(s: Session)
    ensures var r := Stop(s);
      r.countdown.None? && !r.isConnecting && r.status == Stopped && r.error.None?
      && r.serverStatus.None? && r.pending == [] && r.videoTracks == 0
      && r.ws == NoSocket && r.pc.None?
    ensures Stop(Stop(s)) == Stop(s)
    ensures Inv(s) ==> Inv(Stop(s))
  {
  }

  /** Stop closes a live socket, whose close event is still delivered to the
      handlers that captured the status of their start. */
  lemma StopQueuesCloseOfLiveSocket(s: Session)
    requires s.ws == Open
    ensures Stop(s).closing == s.closing + [ClosingSocket(s.seenStatus, false)]
  {
  }

  // ---------------------------------------------------------------------------
  // Local candidates
  // ---------------------------------------------------------------------------

  /** A gathered candidate is sent only on an open socket and only when it
      names no mDNS host. */
  lemma LocalCandidateFiltered(s: Session, c: string)
    requires Enabled(s, LocalCandidate(Some(c)))
    ensures Step(s, LocalCandidate(Some(c))).outbox
            == s.outbox + (if s.ws == Open && !Contains(c, MdnsMarker) then [CandidateSent(c)] else [])
  {
  }

  /** No reachable state has sent a ".local" candidate. */
  lemma NeverSendsMdns(trace: seq<Event>)
    ensures Run(Initial, trace).Some? ==> NoMdnsSent(Run(Initial, trace).value.outbox)
  {
    InitialInv();
    RunPreservesInv(Initial, trace);
  }

  // ---------------------------------------------------------------------------
  // Consequences of the captured status
  // ---------------------------------------------------------------------------

  lemma RunTwo(s: Session, e: Event, rest: seq<Event>)
    requires Enabled(s, e)
    ensures Run(s, [e] + rest) == Run(Step(s, e), rest)
  {
    assert ([e] + rest)[0] == e;
    assert ([e] + rest)[1..] == rest;
  }

  /** Handlers installed by a start clicked while the status was stopped never
      react to the socket closing: no status change, no reconnect timer. */
  lemma CloseIgnoredWhenStartedFromStopped(s: Session)
    requires Enabled(s, SocketClose) && s.seenStatus == Stopped
    ensures Step(s, SocketClose) == s.(ws := Closed)
  {
  }

  /** From the initial state, a started session whose socket the server
      closes keeps showing connecting with `isConnecting` set: the Start
      button stays disabled and no reconnection is scheduled. */
  lemma {:induction false} FirstStartNeverReconnects()
    ensures var r := Run(Initial, [UserStart, SocketOpen(Ok), SocketClose]);
      r.Some? && r.value.status == Connecting && r.value.isConnecting
      && r.value.ws == Closed && r.value.reconnectTimers == []
  {
    var s1 := Step(Initial, UserStart);
    var s2 := Step(s1, SocketOpen(Ok));
    var s3 := Step(s2, SocketClose);
    assert s3.status == Connecting && s3.isConnecting && s3.ws == Closed;
    RunTwo(s2, SocketClose, []);
    RunTwo(s1, SocketOpen(Ok), [SocketClose]);
    assert [SocketOpen(Ok)] + [SocketClose] == [SocketOpen(Ok), SocketClose];
    RunTwo(Initial, UserStart, [SocketOpen(Ok), SocketClose]);
    assert [UserStart] + [SocketOpen(Ok), SocketClose] == [UserStart, SocketOpen(Ok), SocketClose];
  }

  lemma {:induction false} RunAppend(s: Session, a: seq<Event>, b: seq<Event>)
    requires Run(s, a).Some?
    ensures Run(s, a + b) == Run(Run(s, a).value, b)
    decreases |a|
  {
    if |a| == 0 {
      assert a + b == b;
    } else {
      assert Enabled(s, a[0]);
      assert Run(s, a) == Run(Step(s, a[0]), a[1..]);
      assert (a + b)[0] == a[0];
      assert (a + b)[1..] == a[1..] + b;
      RunAppend(Step(s, a[0]), a[1..], b);
    }
  }

  /** Stop does not disarm a pending reconnect timer: whatever else is
      pending, when the timer captured a status other than stopped the session
      restarts right after the Stop. */
  lemma StopThenTimerRestarts(s: Session)
    requires Enabled(s, UserStop) && s.reconnectTimers == [Failed]
    ensures var r := Run(s, [UserStop, ReconnectTimer]);
      r.Some? && r.value.status == Connecting && r.value.isConnecting && r.value.ws == Opening
  {
    var s6 := Step(s, UserStop);
    RunTwo(s6, ReconnectTimer, []);
    RunTwo(s, UserStop, [ReconnectTimer]);
    assert [UserStop] + [ReconnectTimer] == [UserStop, ReconnectTimer];
  }

  /** Starting after a failure, then losing the socket, arms a reconnect
      timer that captured "failed". */
  lemma {:induction false} RestartAfterFailureArmsTimer()
    ensures var r := Run(Initial, [UserStart, SocketError, UserStart, SocketOpen(Ok), SocketClose]);
      r.Some? && r.value.reconnectTimers == [Failed] && r.value.status == Disconnected
      && Enabled(r.value, UserStop)
  {
    var s1 := Step(Initial, UserStart);
    var s2 := Step(s1, SocketError);
    var s3 := Step(s2, UserStart);
    var s4 := Step(s3, SocketOpen(Ok));
    var s5 := Step(s4, SocketClose);
    assert s5.reconnectTimers == [Failed] && s5.status == Disconnected;
    RunTwo(s4, SocketClose, []);
    assert [SocketClose] + [] == [SocketClose];
    RunTwo(s3, SocketOpen(Ok), [SocketClose]);
    assert [SocketOpen(Ok)] + [SocketClose] == [SocketOpen(Ok), SocketClose];
    RunTwo(s2, UserStart, [SocketOpen(Ok), SocketClose]);
    assert [UserStart] + [SocketOpen(Ok), SocketClose] == [UserStart, SocketOpen(Ok), SocketClose];
    RunTwo(s1, SocketError, [UserStart, SocketOpen(Ok), SocketClose]);
    assert [SocketError] + [UserStart, SocketOpen(Ok), SocketClose]
        == [SocketError, UserStart, SocketOpen(Ok), SocketClose];
    RunTwo(Initial, UserStart, [SocketError, UserStart, SocketOpen(Ok), SocketClose]);
    assert [UserStart] + [SocketError, UserStart, SocketOpen(Ok), SocketClose]
        == [UserStart, SocketError, UserStart, SocketOpen(Ok), SocketClose];
  }

  /** A start clicked after a failure installs handlers that captured
      "failed". If the server then closes the socket and the user presses
      Stop before the 2 s timer fires, the timer still restarts the session. */
  lemma {:induction false} StopDoesNotCancelReconnect()
    ensures var r := Run(Initial, [UserStart, SocketError, UserStart, SocketOpen(Ok), SocketClose,
                                   UserStop, ReconnectTimer]);
      r.Some? && r.value.status == Connecting && r.value.isConnecting && r.value.ws == Opening
  {
    var a := [UserStart, SocketError, UserStart, SocketOpen(Ok), SocketClose];
    var b := [UserStop, ReconnectTimer];
    RestartAfterFailureArmsTimer();
    RunAppend(Initial, a, b);
    StopThenTimerRestarts(Run(Initial, a).value);
    assert a + b == [UserStart, SocketError, UserStart, SocketOpen(Ok), SocketClose, UserStop, ReconnectTimer];
  }
}
