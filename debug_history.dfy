/** The backend's two bounded histories: the debug logger, which keeps the
    last thousand messages and drops every debug client whose write failed,
    and the AirPlay window state, which logs each change of the receiver's
    window size in a history of the last fifty changes. */
module DebugHistory {
  import opened Common

  type Conn = nat

  // ---------------------------------------------------------------------------
  // Debug logger
  // ---------------------------------------------------------------------------

  const MaxDebugMessages: nat := 1000

  /** A debug message; the free-form details map is not modelled. */
  datatype DebugMessage = DebugMessage(timestamp: int, level: string, category: string, event: string, message: string)

  class DebugLogger {
    var connections: set<Conn>
    var messages: seq<DebugMessage>
    var maxMessages: nat

    ghost predicate Valid()
      reads this
    {
      maxMessages == MaxDebugMessages && |messages| <= maxMessages
    }

    /** `initDebugLogger`. */
    constructor ()
      ensures Valid() && connections == {} && messages == []
    {
      connections, messages, maxMessages := {}, [], MaxDebugMessages;
    }

    /** `AddConnection`; the replay of the history to the new client is a
        write whose outcome is ignored, so it leaves no trace here. */
    method AddConnection(conn: Conn)
      modifies this`connections
      ensures connections == old(connections) + {conn}
    {
      connections := connections + {conn};
    }

    method RemoveConnection(conn: Conn)
      modifies this`connections
      ensures connections == old(connections) - {conn}
    {
      connections := connections - {conn};
    }

    /** `Broadcast`: append the message to the history, keep its newest
        `maxMessages` entries, write it to every client and forget the clients
        in `failing`, those whose write fails. */
    method Broadcast(msg: DebugMessage, failing: set<Conn>)
      requires Valid()
      modifies this`messages, this`connections
      ensures Valid()
      ensures messages == KeepLast(old(messages) + [msg], maxMessages)
      ensures connections == old(connections) - failing
    {
      messages := messages + [msg];
      if |messages| > maxMessages {
        messages := messages[|messages| - maxMessages..];
      }
      ghost var history := messages;
      var dead: seq<Conn> := [];
      var unvisited := connections;
      while unvisited != {}
        invariant unvisited <= connections
        invariant forall c :: c in dead <==> c in connections - unvisited && c in failing
        invariant messages == history
        decreases unvisited
      {
        var conn :| conn in unvisited;
        if conn in failing {
          dead := dead + [conn];
        }
        unvisited := unvisited - {conn};
      }
      ghost var before := connections;
      var i := 0;
      while i < |dead|
        invariant 0 <= i <= |dead|
        invariant forall c :: c in connections <==> c in before && c !in dead[..i]
        invariant messages == history
      {
        connections := connections - {dead[i]};
        i := i + 1;
        assert dead[..i] == dead[..i - 1] + [dead[i - 1]];
      }
      assert dead[..|dead|] == dead;
      assert connections == before - failing;
    }
  }

  /** The history after a broadcast ends with the new message, never exceeds
      the bound, and loses an entry only once the bound is reached. */
  lemma {:induction false} BroadcastHistory(h: seq<DebugMessage>, msg: DebugMessage)
    requires |h| <= MaxDebugMessages
    ensures var r := KeepLast(h + [msg], MaxDebugMessages);
      && |r| <= MaxDebugMessages && r[|r| - 1] == msg
      && (|h| < MaxDebugMessages ==> r == h + [msg])
      && (|h| == MaxDebugMessages ==> r == h[1..] + [msg])
  {
    KeepLastAppend(h, msg, MaxDebugMessages);
    if |h| == MaxDebugMessages {
      ShiftOnceIsKeepLast(h, msg, MaxDebugMessages);
      assert (h + [msg])[1..] == h[1..] + [msg];
    }
  }

  // ---------------------------------------------------------------------------
  // AirPlay window state
  // ---------------------------------------------------------------------------

  const MaxSizeHistory: nat := 50

  /** The size the receiver's window shows while nothing is mirrored. */
  const IdleSize: string := "1x1"

  datatype SizeChangeEvent = SizeChangeEvent(timestamp: int, oldSize: string, newSize: string, reason: string, connected: bool)

  /** Streaming is active exactly when the window has a size other than the idle one. */
  predicate IsStreaming(size: string)
  {
    size != "" && size != IdleSize
  }

  /** A size history whose entries are real changes, each starting where the
      previous one ended, the last ending at the current size. */
  ghost predicate Chained(h: seq<SizeChangeEvent>, current: string)
  {
    && (forall i :: 0 <= i < |h| ==> h[i].oldSize != h[i].newSize)
    && (forall i :: 0 <= i < |h| - 1 ==> h[i].newSize == h[i + 1].oldSize)
    && (|h| > 0 ==> h[|h| - 1].newSize == current)
  }

  /** Recording a change from the current size and trimming to the bound keeps
      the history a chain ending at the new size. */
  lemma {:induction false} ChainedAfterChange(h: seq<SizeChangeEvent>, current: string, e: SizeChangeEvent)
    requires Chained(h, current) && e.oldSize == current && e.newSize != current
    ensures Chained(KeepLast(h + [e], MaxSizeHistory), e.newSize)
  {
    var g := h + [e];
    assert forall i :: 0 <= i < |g| - 1 ==> g[i].newSize == g[i + 1].oldSize by {
      forall i | 0 <= i < |g| - 1
        ensures g[i].newSize == g[i + 1].oldSize
      {
        if i == |g| - 2 {
          assert g[i] == h[|h| - 1] && g[i + 1] == e;
        } else {
          assert g[i] == h[i] && g[i + 1] == h[i + 1];
        }
      }
    }
    assert forall i :: 0 <= i < |g| ==> g[i].oldSize != g[i].newSize by {
      forall i | 0 <= i < |g|
        ensures g[i].oldSize != g[i].newSize
      {
        if i < |h| { assert g[i] == h[i]; }
      }
    }
    var r := KeepLast(g, MaxSizeHistory);
    var d := |g| - |r|;
    forall i | 0 <= i < |r| - 1
      ensures r[i].newSize == r[i + 1].oldSize
    {
      assert r[i] == g[d + i] && r[i + 1] == g[d + i + 1];
    }
  }

  class AirPlayState {
    var connected: bool
    var windowSize: string
    var lastUpdate: Option<int>
    var connectionStart: Option<int>   // None: Go's zero time
    var streamingActive: bool
    var lastSizeChange: Option<int>
    var sizeHistory: seq<SizeChangeEvent>

    /** The history is bounded and chained to the current size, streaming is
        derived from the size, and a connection start is kept exactly while
        connected. */
    ghost predicate Valid()
      reads this
    {
      && |sizeHistory| <= MaxSizeHistory
      && Chained(sizeHistory, windowSize)
      && (streamingActive <==> IsStreaming(windowSize))
      && (connectionStart.Some? <==> connected)
    }

    /** The state at process start. */
    constructor ()
      ensures Valid() && !connected && windowSize == "" && sizeHistory == []
    {
      connected, windowSize, lastUpdate, connectionStart := false, "", None, None;
      streamingActive, lastSizeChange, sizeHistory := false, None, [];
    }

    /** `updateAirPlayState`: log a size change in the history, then store the
        new size and the streaming flag it implies. */
    method UpdateAirPlayState(newSize: string, reason: string, now: int)
      requires Valid()
      modifies this
      ensures Valid()
      ensures windowSize == newSize && lastUpdate == Some(now) && streamingActive == IsStreaming(newSize)
      ensures old(windowSize) != newSize ==>
                sizeHistory == KeepLast(old(sizeHistory) + [SizeChangeEvent(now, old(windowSize), newSize, reason, connected)],
                                        MaxSizeHistory)
                && lastSizeChange == Some(now)
      ensures old(windowSize) == newSize ==> sizeHistory == old(sizeHistory) && lastSizeChange == old(lastSizeChange)
      ensures connected == old(connected) && connectionStart == old(connectionStart)
    {
      var oldSize := windowSize;
      if oldSize != newSize {
        var event := SizeChangeEvent(now, oldSize, newSize, reason, connected);
        ChainedAfterChange(sizeHistory, oldSize, event);
        sizeHistory := sizeHistory + [event];
        if |sizeHistory| > MaxSizeHistory {
          sizeHistory := sizeHistory[|sizeHistory| - MaxSizeHistory..];
        }
        lastSizeChange := Some(now);
      }
      windowSize := newSize;
      lastUpdate := Some(now);
      streamingActive := newSize != "" && newSize != IdleSize;
    }

    /** `setAirPlayConnection`: a change of the connection flag records or
        clears the connection start; a repeated value changes nothing. */
    method SetAirPlayConnection(isConnected: bool, now: int)
      requires Valid()
      modifies this`connected, this`connectionStart
      ensures Valid() && connected == isConnected
      ensures old(connected) != isConnected ==> connectionStart == (if isConnected then Some(now) else None)
      ensures old(connected) == isConnected ==> connectionStart == old(connectionStart)
    {
      if connected != isConnected {
        connected := isConnected;
        if isConnected {
          connectionStart := Some(now);
        } else {
          connectionStart := None;
        }
      }
    }
  }
}
