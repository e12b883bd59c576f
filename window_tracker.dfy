/** The backend's auto-reconnect globals as one object, updated in place by
    the window monitor's handlers; each handler is proved to move the object
    exactly as the matching function of `WindowMonitor` moves its state. */
module WindowTracking {
  import opened Common
  import opened WindowList
  import opened WindowMonitor

  class WindowTracker {
    var lastWindowState: bool
    var lastWindowID: string
    var checkCount: nat
    var phoneReady: bool
    var reconnectedWindowID: string
    var lastAttempt: Option<int>
    var autoReconnect: bool
    var startTime: int
    var session: Option<StreamSession>
    var preserved: Option<Conn>
    var activeConn: Option<Conn>
    var sent: seq<Notice>
    var closed: seq<Conn>

    ghost function View(): Monitor
      reads this
    {
      Monitor(lastWindowState, lastWindowID, checkCount, phoneReady, reconnectedWindowID, lastAttempt,
              autoReconnect, startTime, session, preserved, activeConn, sent, closed)
    }

    ghost predicate Valid()
      reads this
    {
      Inv(View())
    }

    /** The globals at process start, `startTime` read from the clock and
        `initial` the window probe made at start-up. */
    constructor (startedAt: int, initial: FindResult)
      ensures Valid() && View() == Boot(startedAt, initial)
    {
      lastWindowState, lastWindowID, checkCount := false, "", 0;
      phoneReady, reconnectedWindowID, lastAttempt := false, "", None;
      autoReconnect, startTime := true, startedAt;
      session, preserved, activeConn, sent, closed := None, None, None, [], [];
      var (count, id) := WindowCountAndID(initial);
      if count > 0 && id != "" {
        lastWindowID := id;
        lastWindowState := true;
      }
      BootInv(startedAt, initial);
    }

    /** The start of the signaling socket handler: record the socket and
        force a window check. */
    method OnSignalingOpened(conn: Conn, found: FindResult, now: int)
      requires Valid()
      modifies this
      ensures Valid() && View() == SignalingOpened(old(View()), conn, found, now)
    {
      activeConn := Some(conn);
      var (count, currentID) := WindowCountAndID(found);
      if count > 0 && currentID != "" && !lastWindowState {
        lastWindowState, lastWindowID, checkCount := true, currentID, 0;
        if now - startTime >= StartupGraceMs {
          phoneReady, reconnectedWindowID := true, currentID;
        }
      }
      SignalingInv(old(View()), conn, found, now, 0, false);
    }

    /** The return of the signaling socket handler. */
    method OnSignalingClosed()
      requires Valid()
      modifies this`activeConn
      ensures Valid() && View() == SignalingClosed(old(View()))
    {
      activeConn := None;
    }

    /** The readiness test after the handler built its peer connection,
        whose sender count is `senders`. */
    method CheckReadinessOnConnect(senders: nat, writeOk: bool)
      requires Valid()
      modifies this
      ensures Valid() && View() == ReadinessOnConnect(old(View()), senders, writeOk)
    {
      if phoneReady && reconnectedWindowID != "" {
        if senders == 0 {
          NotifyClient(ReconnectionReady, reconnectedWindowID, writeOk);
        }
        phoneReady, reconnectedWindowID := false, "";
      }
      SignalingInv(old(View()), 0, FindFailed, 0, senders, writeOk);
    }

    /** `cleanupWebRTCSession` with the probe made by
        `checkAutoReconnectAfterCleanup`. */
    method CleanupWebRTCSession(found: FindResult, now: int, writeOk: bool)
      requires Valid()
      modifies this
      ensures Valid() && View() == SessionCleanedUp(old(View()), found, now, writeOk)
    {
      SignalingInv(View(), 0, found, now, 0, writeOk);
      if session.None? {
        return;
      }
      CleanupSession(session.value);
      session := None;
      CheckAutoReconnectAfterCleanup(found, now, writeOk);
    }

    /** `checkAutoReconnectAfterCleanup`. */
    method CheckAutoReconnectAfterCleanup(found: FindResult, now: int, writeOk: bool)
      modifies this
      ensures View() == AfterCleanupCheck(old(View()), found, now, writeOk)
    {
      if !autoReconnect || activeConn.None? {
        return;
      }
      if lastAttempt.Some? && now - lastAttempt.value < AutoReconnectCooldownMs {
        return;
      }
      var (count, windowID) := WindowCountAndID(found);
      if count == 0 || windowID == "" {
        return;
      }
      lastAttempt := Some(now);
      lastWindowID, lastWindowState := windowID, true;
      NotifyClient(ReconnectionReady, windowID, writeOk);
    }

    /** `handleWindowStateChange` with the probe's result, the clock reading
        and the outcome of any socket write it makes. */
    method HandleWindowStateChange(found: FindResult, now: int, writeOk: bool)
      requires Valid()
      modifies this
      ensures Valid() && View() == Observe(old(View()), found, now, writeOk)
    {
      ghost var v0 := View();
      CheckWindowState(found, now, writeOk);
      ObservePreservesInv(v0, found, now, writeOk);
    }

    method CheckWindowState(found: FindResult, now: int, writeOk: bool)
      modifies this
      ensures View() == Observe(old(View()), found, now, writeOk)
    {
      var (count, currentID) := WindowCountAndID(found);
      var hasWindow := count > 0;
      if hasWindow && lastWindowID != "" && currentID != "" && lastWindowID != currentID {
        lastWindowID, lastWindowState, checkCount := currentID, true, 0;
        HandleWindowIDChanged(currentID, now, writeOk);
        return;
      }
      if hasWindow && !lastWindowState && currentID != "" && lastWindowID == "" {
        lastWindowID := currentID;
      }
      if hasWindow == lastWindowState {
        checkCount := 0;
        return;
      }
      if checkCount + 1 < WindowStateConfirmationChecks {
        checkCount := checkCount + 1;
        return;
      }
      ConfirmWindowState(hasWindow, currentID, now, writeOk);
    }

    /** The confirmed change: record the new state and run its handler. */
    method ConfirmWindowState(hasWindow: bool, currentID: string, now: int, writeOk: bool)
      modifies this
      ensures var v := old(View()).(lastWindowState := hasWindow,
                                     lastWindowID := if hasWindow && currentID != "" then currentID else old(lastWindowID),
                                     checkCount := 0);
        View() == if hasWindow then Appeared(v, now, writeOk) else Disappeared(v, writeOk)
    {
      lastWindowState := hasWindow;
      if hasWindow && currentID != "" {
        lastWindowID := currentID;
      }
      checkCount := 0;
      if hasWindow {
        HandleWindowAppeared(now, writeOk);
      } else {
        HandleWindowDisappeared(writeOk);
      }
    }

    /** `handleWindowDisappeared`. */
    method HandleWindowDisappeared(writeOk: bool)
      modifies this
      ensures View() == Disappeared(old(View()), writeOk)
    {
      phoneReady, reconnectedWindowID := false, "";
      ghost var v1 := View();
      if activeConn.Some? {
        NotifyClient(AirplayDisconnected, "", writeOk);
      }
      assert View() == if v1.activeConn.Some? then Notify(v1, AirplayDisconnected, "", writeOk) else v1;
      if session.Some? {
        var s := session.value;
        preserved := s.socket;
        ghost var v2 := View();
        CleanupSession(s);
        assert View() == CleanUp(v2, s);
        session := None;
      }
      lastWindowID := "";
    }

    /** `handleWindowAppeared`. */
    method HandleWindowAppeared(now: int, writeOk: bool)
      modifies this
      ensures View() == Appeared(old(View()), now, writeOk)
    {
      if now - startTime < StartupGraceMs {
        return;
      }
      if lastAttempt.Some? && now - lastAttempt.value < AutoReconnectCooldownMs {
        return;
      }
      phoneReady, reconnectedWindowID, lastAttempt := true, lastWindowID, Some(now);
      var target: Option<Conn> := None;
      if preserved.Some? {
        target := preserved;
        preserved := None;
      } else if activeConn.Some? {
        target := activeConn;
      }
      if session.Some? && session.value.senders > 0 {
        phoneReady, reconnectedWindowID := false, "";
        return;
      }
      if target.Some? && writeOk {
        sent := sent + [Notice(target.value, ReconnectionReady, lastWindowID)];
      }
    }

    /** `handleWindowIDChanged`. */
    method HandleWindowIDChanged(newID: string, now: int, writeOk: bool)
      modifies this
      ensures View() == IDChanged(old(View()), newID, now, writeOk)
    {
      if now - startTime < StartupGraceMs {
        return;
      }
      if lastAttempt.Some? && now - lastAttempt.value < AutoReconnectCooldownMs {
        return;
      }
      phoneReady, reconnectedWindowID, lastAttempt := true, newID, Some(now);
      if autoReconnect {
        if session.Some? {
          CleanupSession(session.value);
          session := None;
        }
        if activeConn.Some? {
          NotifyClient(ReconnectionReady, newID, writeOk);
        }
      }
    }

    /** `notifyWebSocketClient`. */
    method NotifyClient(kind: NoticeKind, windowID: string, writeOk: bool)
      modifies this`sent, this`activeConn
      ensures View() == Notify(old(View()), kind, windowID, writeOk)
    {
      if activeConn.None? {
        return;
      }
      if writeOk {
        sent := sent + [Notice(activeConn.value, kind, windowID)];
      } else {
        activeConn := None;
      }
    }

    /** The socket-closing part of a session's `Cleanup`. */
    method CleanupSession(s: StreamSession)
      modifies this`closed
      ensures View() == CleanUp(old(View()), s)
    {
      if s.socket.Some? && s.socket != preserved {
        closed := closed + [s.socket.value];
      }
    }
  }
}
