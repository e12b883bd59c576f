/** The backend's auto-reconnect bookkeeping as a pure state machine: the
    once-a-second window probe debounced over five observations, the
    handlers for a window that appeared, disappeared or changed its id, and
    the notifications they write to the browser's signaling socket.
    Time is milliseconds on one clock; a socket is known by a number. */
module WindowMonitor {
  import opened Common
  import opened WindowList

  type Conn = nat

  const WindowStateConfirmationChecks: nat := 5
  const AutoReconnectCooldownMs: int := 5000
  const StartupGraceMs: int := 30000

  /** The streaming session the backend holds for the current browser:
      its signaling socket, if any, and how many tracks its peer sends. */
  datatype StreamSession = StreamSession(socket: Option<Conn>, senders: nat)

  datatype NoticeKind = AirplayDisconnected | ReconnectionReady

  /** A notification written to a browser socket. */
  datatype Notice = Notice(to: Conn, kind: NoticeKind, windowID: string)

  datatype Monitor = Monitor(
    lastWindowState: bool,
    lastWindowID: string,
    checkCount: nat,
    phoneReady: bool,
    reconnectedWindowID: string,
    lastAttempt: Option<int>,      // None: the zero time, long before any clock reading
    autoReconnect: bool,
    startTime: int,
    session: Option<StreamSession>,
    preserved: Option<Conn>,
    activeConn: Option<Conn>,
    sent: seq<Notice>,             // notices whose write succeeded, oldest first
    closed: seq<Conn>)             // sockets closed by session clean-up, oldest first

  /** The state at process start, given the probe made at start-up: a window
      already present is recorded as confirmed. */
  function Boot(startTime: int, initial: FindResult): (r: Monitor)
    ensures r.lastWindowState == (WindowCountAndID(initial).0 > 0)
    ensures r.lastWindowID == WindowCountAndID(initial).1
    ensures r.checkCount == 0 && !r.phoneReady && r.autoReconnect && r.startTime == startTime
    ensures r.session.None? && r.activeConn.None? && r.preserved.None? && r.sent == [] && r.closed == []
  {
    var m := Monitor(false, "", 0, false, "", None, true, startTime, None, None, None, [], []);
    var (count, id) := WindowCountAndID(initial);
    if count > 0 && id != "" then m.(lastWindowID := id, lastWindowState := true) else m
  }

  predicate InStartup(m: Monitor, now: int)
  {
    now - m.startTime < StartupGraceMs
  }

  predicate InCooldown(m: Monitor, now: int)
  {
    m.lastAttempt.Some? && now - m.lastAttempt.value < AutoReconnectCooldownMs
  }

  /** `notifyWebSocketClient`: write to the active socket if there is one; a
      failed write forgets that socket. */
  function Notify(m: Monitor, kind: NoticeKind, windowID: string, writeOk: bool): (r: Monitor)
    ensures r.activeConn.Some? ==> r.activeConn == m.activeConn
    ensures |r.sent| <= |m.sent| + 1
  {
    match m.activeConn
    case None => m
    case Some(c) =>
      if writeOk then m.(sent := m.sent + [Notice(c, kind, windowID)]) else m.(activeConn := None)
  }

  /** `Cleanup` of a session: its socket is closed unless it is the preserved one. */
  function CleanUp(m: Monitor, s: StreamSession): Monitor
  {
    if s.socket.Some? && s.socket != m.preserved then m.(closed := m.closed + [s.socket.value]) else m
  }

  /** `handleWindowDisappeared`. */
  function Disappeared(m: Monitor, writeOk: bool): Monitor
  {
    var m1 := m.(phoneReady := false, reconnectedWindowID := "");
    var m2 := if m1.activeConn.Some? then Notify(m1, AirplayDisconnected, "", writeOk) else m1;
    var m3 := match m2.session
      case None => m2
      case Some(s) => CleanUp(m2.(preserved := s.socket), s).(session := None);
    m3.(lastWindowID := "")
  }

  /** `handleWindowAppeared`. */
  function Appeared(m: Monitor, now: int, writeOk: bool): Monitor
  {
    if InStartup(m, now) || InCooldown(m, now) then m
    else
      var m1 := m.(phoneReady := true, reconnectedWindowID := m.lastWindowID, lastAttempt := Some(now));
      var target := if m1.preserved.Some? then m1.preserved else m1.activeConn;
      var m2 := if m1.preserved.Some? then m1.(preserved := None) else m1;
      if m2.session.Some? && m2.session.value.senders > 0 then
        m2.(phoneReady := false, reconnectedWindowID := "")
      else if target.Some? && writeOk then
        m2.(sent := m2.sent + [Notice(target.value, ReconnectionReady, m2.lastWindowID)])
      else m2
  }

  /** `handleWindowIDChanged`. Its check for a session that already sends
      tracks follows the clean-up that drops the session, so it never holds
      and is left out. */
  function IDChanged(m: Monitor, newID: string, now: int, writeOk: bool): Monitor
  {
    if InStartup(m, now) || InCooldown(m, now) then m
    else
      var m1 := m.(phoneReady := true, reconnectedWindowID := newID, lastAttempt := Some(now));
      if !m1.autoReconnect then m1
      else
        var m2 := match m1.session
          case None => m1
          case Some(s) => CleanUp(m1, s).(session := None);
        if m2.activeConn.Some? then Notify(m2, ReconnectionReady, newID, writeOk) else m2
  }

  /** Whether a probe shows a window other than the one last recorded. */
  predicate IsIDChange(m: Monitor, f: FindResult)
  {
    var (count, id) := WindowCountAndID(f);
    count > 0 && m.lastWindowID != "" && id != "" && m.lastWindowID != id
  }

  /** `handleWindowStateChange` given the result of the window probe. */
  function Observe(m: Monitor, f: FindResult, now: int, writeOk: bool): Monitor
  {
    var (count, id) := WindowCountAndID(f);
    var hasWindow := count > 0;
    if IsIDChange(m, f) then
      // both id-change branches, with and without a confirmed window
      IDChanged(m.(lastWindowID := id, lastWindowState := true, checkCount := 0), id, now, writeOk)
    else
      var m1 := if hasWindow && !m.lastWindowState && id != "" && m.lastWindowID == ""
                then m.(lastWindowID := id) else m;
      if hasWindow == m1.lastWindowState then m1.(checkCount := 0)
      else if m1.checkCount + 1 < WindowStateConfirmationChecks then m1.(checkCount := m1.checkCount + 1)
      else
        var m2 := m1.(lastWindowState := hasWindow,
                      lastWindowID := if hasWindow && id != "" then id else m1.lastWindowID,
                      checkCount := 0);
        if hasWindow then Appeared(m2, now, writeOk) else Disappeared(m2, writeOk)
  }

  /** The signaling socket handler's start: the socket becomes the active one,
      and a window seen while none is confirmed is confirmed at once. Outside
      the start-up period it is also taken as a missed reconnection. */
  function SignalingOpened(m: Monitor, conn: Conn, f: FindResult, now: int): Monitor
  {
    var m1 := m.(activeConn := Some(conn));
    var (count, id) := WindowCountAndID(f);
    if count > 0 && id != "" && !m1.lastWindowState then
      var m2 := m1.(lastWindowState := true, lastWindowID := id, checkCount := 0);
      if !InStartup(m2, now) then m2.(phoneReady := true, reconnectedWindowID := id) else m2
    else m1
  }

  /** The signaling socket handler's return: no socket is active any more. */
  function SignalingClosed(m: Monitor): Monitor
  {
    m.(activeConn := None)
  }

  /** The readiness test made once the handler has its peer connection:
      recorded readiness is used up, and announced to the browser unless the
      new peer connection already sends `senders` tracks. */
  function ReadinessOnConnect(m: Monitor, senders: nat, writeOk: bool): Monitor
  {
    if m.phoneReady && m.reconnectedWindowID != "" then
      var m1 := if senders > 0 then m else Notify(m, ReconnectionReady, m.reconnectedWindowID, writeOk);
      m1.(phoneReady := false, reconnectedWindowID := "")
    else m
  }

  /** `checkAutoReconnectAfterCleanup` given the probe it makes. */
  function AfterCleanupCheck(m: Monitor, f: FindResult, now: int, writeOk: bool): Monitor
  {
    if !m.autoReconnect || m.activeConn.None? || InCooldown(m, now) then m
    else
      var (count, id) := WindowCountAndID(f);
      if count == 0 || id == "" then m
      else Notify(m.(lastAttempt := Some(now), lastWindowID := id, lastWindowState := true),
                  ReconnectionReady, id, writeOk)
  }

  /** `cleanupWebRTCSession`: an existing session is cleaned up and dropped,
      then the check above runs. */
  function SessionCleanedUp(m: Monitor, f: FindResult, now: int, writeOk: bool): Monitor
  {
    match m.session
    case None => m
    case Some(s) => AfterCleanupCheck(CleanUp(m, s).(session := None), f, now, writeOk)
  }

  /** One probe of the monitor loop. */
  datatype Probe = Probe(found: FindResult, now: int, writeOk: bool)

  function ObserveAll(m: Monitor, probes: seq<Probe>): Monitor
    decreases |probes|
  {
    if |probes| == 0 then m
    else ObserveAll(Observe(m, probes[0].found, probes[0].now, probes[0].writeOk), probes[1..])
  }

  // ---------------------------------------------------------------------------
  // Invariant
  // ---------------------------------------------------------------------------

  /** The debounce counter stays below the confirmation count, a confirmed
      window has a recorded id, and the readiness flag is set exactly when
      a reconnected window id is recorded. */
  ghost predicate Inv(m: Monitor)
  {
    && m.checkCount < WindowStateConfirmationChecks
    && (m.lastWindowState ==> m.lastWindowID != "")
    && (m.phoneReady <==> m.reconnectedWindowID != "")
  }

  lemma BootInv(startTime: int, initial: FindResult)
    ensures Inv(Boot(startTime, initial))
  {
  }

  lemma SignalingInv(m: Monitor, conn: Conn, f: FindResult, now: int, senders: nat, writeOk: bool)
    requires Inv(m)
    ensures Inv(SignalingOpened(m, conn, f, now))
    ensures Inv(SignalingClosed(m))
    ensures Inv(ReadinessOnConnect(m, senders, writeOk))
    ensures Inv(SessionCleanedUp(m, f, now, writeOk))
  {
  }

  lemma AppearedInv(m: Monitor, now: int, writeOk: bool)
    requires Inv(m) && m.lastWindowState
    ensures Inv(Appeared(m, now, writeOk))
  {
  }

  lemma ObservePreservesInv(m: Monitor, f: FindResult, now: int, writeOk: bool)
    requires Inv(m)
    ensures Inv(Observe(m, f, now, writeOk))
  {
    var (count, id) := WindowCountAndID(f);
    if !IsIDChange(m, f) && count > 0 {
      var m1 := if !m.lastWindowState && id != "" && m.lastWindowID == "" then m.(lastWindowID := id) else m;
      if m1.lastWindowState != true && m1.checkCount + 1 >= WindowStateConfirmationChecks {
        AppearedInv(m1.(lastWindowState := true, lastWindowID := id, checkCount := 0), now, writeOk);
      }
    }
  }

  lemma {:induction false} ObserveAllPreservesInv(m: Monitor, probes: seq<Probe>)
    requires Inv(m)
    ensures Inv(ObserveAll(m, probes))
    decreases |probes|
  {
    if |probes| > 0 {
      ObservePreservesInv(m, probes[0].found, probes[0].now, probes[0].writeOk);
      ObserveAllPreservesInv(Observe(m, probes[0].found, probes[0].now, probes[0].writeOk), probes[1..]);
    }
  }

  // ---------------------------------------------------------------------------
  // Debouncing
  // ---------------------------------------------------------------------------

  /** Whether the probe says a window is present. */
  predicate Shows(f: FindResult)
  {
    WindowCountAndID(f).0 > 0
  }

  /** A probe that agrees with the confirmed state, and is not an id change,
      only resets the counter. */
  lemma AgreeingProbeResets(m: Monitor, f: FindResult, now: int, writeOk: bool)
    requires !IsIDChange(m, f) && Shows(f) == m.lastWindowState
    ensures Observe(m, f, now, writeOk) == m.(checkCount := 0)
  {
  }

  /** A differing probe before the fifth only counts; besides recording the
      id of a first window, nothing else changes. */
  lemma DifferingProbeCounts(m: Monitor, f: FindResult, now: int, writeOk: bool)
    requires !IsIDChange(m, f) && Shows(f) != m.lastWindowState
    requires m.checkCount + 1 < WindowStateConfirmationChecks
    ensures var r := Observe(m, f, now, writeOk);
      && r.checkCount == m.checkCount + 1
      && r.lastWindowState == m.lastWindowState
      && r == m.(checkCount := r.checkCount, lastWindowID := r.lastWindowID)
      && (r.lastWindowID != m.lastWindowID ==> m.lastWindowID == "" && r.lastWindowID == WindowCountAndID(f).1)
  {
  }

  /** The differing probe that reaches the confirmation count flips the
      state, resets the counter and runs the matching handler. */
  lemma FifthDifferingProbeConfirms(m: Monitor, f: FindResult, now: int, writeOk: bool)
    requires Inv(m)
    requires !IsIDChange(m, f) && Shows(f) != m.lastWindowState
    requires m.checkCount + 1 == WindowStateConfirmationChecks
    ensures var r := Observe(m, f, now, writeOk);
      && r.lastWindowState == Shows(f)
      && r.checkCount == 0
      && (Shows(f) ==> r.lastWindowID == WindowCountAndID(f).1)
      && (!Shows(f) ==> r.lastWindowID == "" && !r.phoneReady && r.session.None?)
  {
  }

  /** A probe showing a different window than the recorded one is acted on
      at once, whatever the counter says. */
  lemma IDChangeBypassesConfirmation(m: Monitor, f: FindResult, now: int, writeOk: bool)
    requires IsIDChange(m, f)
    ensures var r := Observe(m, f, now, writeOk);
      && r.lastWindowState && r.checkCount == 0
      && r.lastWindowID == f.id
      && (!InStartup(m, now) && !InCooldown(m, now) ==> r.phoneReady && r.reconnectedWindowID == f.id)
  {
  }

  /** A run of probes that all disagree with the confirmed state: they all
      see no window when one is confirmed, and otherwise all see the same
      window `id`, which is not a change from the recorded one. */
  ghost predicate Disagreeing(m: Monitor, probes: seq<Probe>, id: string)
  {
    && (!m.lastWindowState ==> id != "" && (m.lastWindowID == "" || m.lastWindowID == id))
    && forall i :: 0 <= i < |probes| ==>
         WindowCountAndID(probes[i].found) == if m.lastWindowState then (0, "") else (1, id)
  }

  /** Fewer than five consecutive disagreeing probes leave the confirmed state
      alone and only count. */
  lemma {:induction false} FewProbesDoNotConfirm(m: Monitor, probes: seq<Probe>, id: string)
    requires m.checkCount + |probes| < WindowStateConfirmationChecks
    requires Disagreeing(m, probes, id)
    ensures var r := ObserveAll(m, probes);
      && r.lastWindowState == m.lastWindowState && r.checkCount == m.checkCount + |probes|
      && (r.lastWindowID == m.lastWindowID || r.lastWindowID == id)
    decreases |probes|
  {
    if |probes| > 0 {
      var p := probes[0];
      DifferingProbeCounts(m, p.found, p.now, p.writeOk);
      var m1 := Observe(m, p.found, p.now, p.writeOk);
      var rest := probes[1..];
      forall i | 0 <= i < |rest|
        ensures WindowCountAndID(rest[i].found) == if m1.lastWindowState then (0, "") else (1, id)
      {
        assert rest[i] == probes[i + 1];
      }
      FewProbesDoNotConfirm(m1, rest, id);
    }
  }

  /** Five consecutive disagreeing probes from a reset counter confirm the
      change on the fifth. */
  lemma {:induction false} FiveProbesConfirm(m: Monitor, probes: seq<Probe>, id: string)
    requires Inv(m) && m.checkCount == 0 && |probes| == WindowStateConfirmationChecks
    requires Disagreeing(m, probes, id)
    ensures var r := ObserveAll(m, probes);
      r.lastWindowState == !m.lastWindowState && r.checkCount == 0
  {
    var front := probes[..4];
    FewProbesDoNotConfirm(m, front, id);
    var m4 := ObserveAll(m, front);
    ObserveAllPreservesInv(m, front);
    ObserveAllSplit(m, front, probes[4..]);
    assert front + probes[4..] == probes;
    var p := probes[4];
    assert probes[4..] == [p];
    assert WindowCountAndID(p.found) == if m.lastWindowState then (0, "") else (1, id);
    FifthDifferingProbeConfirms(m4, p.found, p.now, p.writeOk);
  }

  lemma {:induction false} ObserveAllSplit(m: Monitor, a: seq<Probe>, b: seq<Probe>)
    ensures ObserveAll(m, a + b) == ObserveAll(ObserveAll(m, a), b)
    decreases |a|
  {
    if |a| > 0 {
      assert (a + b)[0] == a[0] && (a + b)[1..] == a[1..] + b;
      ObserveAllSplit(Observe(m, a[0].found, a[0].now, a[0].writeOk), a[1..], b);
    } else {
      assert a + b == b;
    }
  }

  // ---------------------------------------------------------------------------
  // Handlers
  // ---------------------------------------------------------------------------

  /** Disappearance clears the readiness flags, the session and the recorded
      window id, keeps the session's socket for the next reconnect instead of
      closing it, and sends at most the disconnect notice. */
  lemma DisappearedResets(m: Monitor, writeOk: bool)
    ensures var r := Disappeared(m, writeOk);
      && !r.phoneReady && r.reconnectedWindowID == "" && r.session.None? && r.lastWindowID == ""
      && r.closed == m.closed
      && (m.session.Some? ==> r.preserved == m.session.value.socket)
      && (m.session.None? ==> r.preserved == m.preserved)
      && (m.activeConn.Some? && writeOk ==> r.sent == m.sent + [Notice(m.activeConn.value, AirplayDisconnected, "")])
      && (m.activeConn.None? || !writeOk ==> r.sent == m.sent)
  {
  }

  /** Within the first thirty seconds of the process, or within five seconds of
      the previous attempt, the appearance and id-change handlers do nothing. */
  lemma HandlersHoldOff(m: Monitor, id: string, now: int, writeOk: bool)
    requires InStartup(m, now) || InCooldown(m, now)
    ensures Appeared(m, now, writeOk) == m
    ensures IDChanged(m, id, now, writeOk) == m
  {
  }

  /** An attempt starts the cooldown: a second appearance within five seconds
      changes nothing. */
  lemma AppearedTwiceWithinCooldown(m: Monitor, now: int, later: int, writeOk: bool, writeOk2: bool)
    requires !InStartup(m, now) && !InCooldown(m, now)
    requires now <= later < now + AutoReconnectCooldownMs
    ensures var r := Appeared(m, now, writeOk);
      Appeared(r, later, writeOk2) == r
  {
  }

  /** Appearance outside the hold-off always uses up the preserved socket.
      When the session already sends tracks the flags end cleared and nothing
      is sent; otherwise the flags record the window and a readiness notice
      goes to the preserved socket, or failing that to the active one. */
  lemma AppearedEffect(m: Monitor, now: int, writeOk: bool)
    requires !InStartup(m, now) && !InCooldown(m, now)
    ensures var r := Appeared(m, now, writeOk);
      && r.preserved.None? && r.lastAttempt == Some(now)
      && r.lastWindowState == m.lastWindowState && r.lastWindowID == m.lastWindowID
      && (m.session.Some? && m.session.value.senders > 0 ==>
            !r.phoneReady && r.reconnectedWindowID == "" && r.sent == m.sent)
      && (!(m.session.Some? && m.session.value.senders > 0) ==>
            r.phoneReady && r.reconnectedWindowID == m.lastWindowID &&
            (m.preserved.Some? && writeOk ==>
               r.sent == m.sent + [Notice(m.preserved.value, ReconnectionReady, m.lastWindowID)]) &&
            (m.preserved.None? && m.activeConn.Some? && writeOk ==>
               r.sent == m.sent + [Notice(m.activeConn.value, ReconnectionReady, m.lastWindowID)]))
  {
  }

  /** With auto-reconnect on, a window id change outside the hold-off always
      drops the session and sets the flags; the notice goes to the active
      socket, and a failed write forgets that socket. */
  lemma IDChangedEffect(m: Monitor, id: string, now: int, writeOk: bool)
    requires !InStartup(m, now) && !InCooldown(m, now) && m.autoReconnect
    ensures var r := IDChanged(m, id, now, writeOk);
      && r.session.None? && r.phoneReady && r.reconnectedWindowID == id && r.lastAttempt == Some(now)
      && (m.activeConn.Some? && writeOk ==>
            r.sent == m.sent + [Notice(m.activeConn.value, ReconnectionReady, id)] && r.activeConn == m.activeConn)
      && (m.activeConn.Some? && !writeOk ==> r.sent == m.sent && r.activeConn.None?)
      && (m.session.Some? && m.session.value.socket.Some? && m.session.value.socket != m.preserved ==>
            r.closed == m.closed + [m.session.value.socket.value])
  {
  }

  // ---------------------------------------------------------------------------
  // The signaling socket's writers
  // ---------------------------------------------------------------------------

  /** A socket that connects while a window shows but none is confirmed
      confirms it without debouncing; readiness is recorded only after the
      start-up period. A confirmed state or an absent window changes nothing
      but the active socket. */
  lemma SignalingOpenedEffect(m: Monitor, conn: Conn, f: FindResult, now: int)
    ensures var r := SignalingOpened(m, conn, f, now);
      && r.activeConn == Some(conn)
      && (Shows(f) && !m.lastWindowState ==>
            && r.lastWindowState && r.lastWindowID == WindowCountAndID(f).1 && r.checkCount == 0
            && (InStartup(m, now) ==> r.phoneReady == m.phoneReady && r.reconnectedWindowID == m.reconnectedWindowID)
            && (!InStartup(m, now) ==> r.phoneReady && r.reconnectedWindowID == WindowCountAndID(f).1))
      && (!Shows(f) || m.lastWindowState ==> r == m.(activeConn := Some(conn)))
  {
  }

  /** Readiness is always used up by a new socket; the notice is written
      exactly when readiness was recorded and the peer sends no track yet. */
  lemma ReadinessOnConnectEffect(m: Monitor, senders: nat, writeOk: bool)
    requires Inv(m)
    ensures var r := ReadinessOnConnect(m, senders, writeOk);
      && !r.phoneReady && r.reconnectedWindowID == ""
      && (m.phoneReady && senders == 0 && m.activeConn.Some? && writeOk ==>
            r.sent == m.sent + [Notice(m.activeConn.value, ReconnectionReady, m.reconnectedWindowID)])
      && (!(m.phoneReady && senders == 0 && m.activeConn.Some? && writeOk) ==> r.sent == m.sent)
  {
  }

  /** After a session is cleaned up, a still-present window is recorded as
      confirmed and announced, unless auto-reconnect is off, no socket is
      active, or the cooldown runs. */
  lemma SessionCleanedUpEffect(m: Monitor, f: FindResult, now: int, writeOk: bool)
    requires m.session.Some?
    ensures var r := SessionCleanedUp(m, f, now, writeOk);
      && r.session.None?
      && (m.autoReconnect && m.activeConn.Some? && !InCooldown(m, now) && Shows(f) ==>
            && r.lastWindowState && r.lastWindowID == WindowCountAndID(f).1 && r.lastAttempt == Some(now)
            && (writeOk ==> r.sent == m.sent + [Notice(m.activeConn.value, ReconnectionReady, WindowCountAndID(f).1)]))
      && (!(m.autoReconnect && m.activeConn.Some? && !InCooldown(m, now) && Shows(f)) ==>
            r.lastWindowState == m.lastWindowState && r.lastWindowID == m.lastWindowID && r.sent == m.sent)
  {
  }
}
