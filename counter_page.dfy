/** The people-counter page as one object: the signaling socket with its
    reconnect timer, the choice between the camera and an uploaded video,
    the region-of-interest editor on the video image, and the statistics the
    server streams. Socket, timer and pointer events are method calls; the
    pointer position arrives already converted to image pixels. */
module CounterPage {
  import opened Common
  import opened RoiEditing

  const ReconnectDelayMs: nat := 5000
  const StatsHistoryLength: nat := 50
  const MetricWidth: nat := 8
  const DummyCredential: string := "dummy"

  datatype Source = Camera | VideoFile

  /** The current socket: `Connecting` carries the credentials its handlers
      captured when it was opened. */
  datatype WsState = NoSocket | Connecting(user: string, password: string, host: string) | Open | Closing | Closed

  /** What the status line shows. */
  datatype PageStatus = Idle | FillCameraFields | ChooseVideo | Dialing | Connected | SocketError | Disconnected
                      | PreviousSourceStopped | VideoRunning(name: string) | VideoStartFailed
                      | VideoStopped | VideoStopFailed

  datatype Outgoing = Auth(user: string, password: string, host: string) | RoiUpdate(points: seq<Point>)

  datatype ImageSize = ImageSize(width: real, height: real)

  /** Why `connectWS` refuses to open a socket, if it does. */
  function ConnectRefusal(source: Source, user: string, password: string, host: string, currentVideo: Option<string>): (r: Option<PageStatus>)
    ensures r.None? <==>
              (source == Camera ==> user != "" && password != "" && host != "") &&
              (source == VideoFile ==> currentVideo.Some? && currentVideo.value != "")
    ensures r.Some? ==> r.value in {FillCameraFields, ChooseVideo}
  {
    if source == Camera && (user == "" || password == "" || host == "") then Some(FillCameraFields)
    else if source == VideoFile && (currentVideo.None? || currentVideo.value == "") then Some(ChooseVideo)
    else None
  }

  /** The first message on an opened socket: placeholder credentials when a
      video is the source, the captured camera credentials otherwise. */
  function AuthFor(source: Source, user: string, password: string, host: string): (m: Outgoing)
    ensures m.Auth?
    ensures source == VideoFile ==> m == Auth(DummyCredential, DummyCredential, DummyCredential)
    ensures source == Camera ==> m == Auth(user, password, host)
  {
    if source == VideoFile then Auth(DummyCredential, DummyCredential, DummyCredential) else Auth(user, password, host)
  }

  // ---------------------------------------------------------------------------
  // Metric formatting
  // ---------------------------------------------------------------------------

  /** `String.prototype.padStart` with spaces. */
  function PadStart(s: string, width: nat): (r: string)
    ensures |r| == if |s| < width then width else |s|
    ensures EndsWith(r, s)
    ensures forall i :: 0 <= i < |r| - |s| ==> r[i] == ' '
  {
    if |s| >= width then s else Spaces(width - |s|) + s
  }

  /** `formatMetric`: the value and its unit, right-aligned in `width` columns. */
  function FormatMetric(value: string, unit: string, width: nat): (r: string)
    ensures |r| >= width && EndsWith(r, value + unit)
  {
    PadStart(value + unit, width)
  }

  /** Padding is idempotent, and a padded text is recovered by dropping the
      leading columns. */
  lemma PadStartIdempotent(s: string, width: nat)
    ensures PadStart(PadStart(s, width), width) == PadStart(s, width)
    ensures var r := PadStart(s, width); r[|r| - |s|..] == s
  {
  }

  class Page {
    var source: Source
    var currentVideo: Option<string>
    var ws: WsState
    var manualClose: bool
    var reconnectPending: bool
    var videoConnects: nat             // armed one-second connects after a video start
    var status: PageStatus
    var outbox: seq<Outgoing>
    var roiPoints: Option<seq<Point>>
    var roiFromBackend: bool
    var image: Option<ImageSize>
    var draggingVertex: Option<int>
    var draggingMid: Option<nat>
    var pointerId: Option<int>         // set exactly while a pointer is down
    var lastStats: map<string, string>
    var statsHistory: seq<int>         // arrival times of the last messages

    ghost predicate Valid()
      reads this
    {
      |statsHistory| <= StatsHistoryLength
    }

    constructor ()
      ensures Valid() && source == Camera && ws == NoSocket && !reconnectPending && roiPoints.None?
    {
      source, currentVideo, ws, manualClose, reconnectPending, videoConnects := Camera, None, NoSocket, false, false, 0;
      status, outbox, roiPoints, roiFromBackend, image := Idle, [], None, false, None;
      draggingVertex, draggingMid, pointerId, lastStats, statsHistory := None, None, None, map[], [];
    }

    // -------------------------------------------------------------------------
    // Socket
    // -------------------------------------------------------------------------

    /** `connectWS` with the current contents of the three input fields. */
    method ConnectWS(user: string, password: string, host: string)
      modifies this`ws, this`status, this`roiFromBackend
      ensures var refusal := ConnectRefusal(source, user, password, host, currentVideo);
        && (refusal.Some? ==> status == refusal.value && ws == old(ws) && roiFromBackend == old(roiFromBackend))
        && (refusal.None? ==> status == Dialing && ws == Connecting(user, password, host) && !roiFromBackend)
    {
      if source == Camera && (user == "" || password == "" || host == "") {
        status := FillCameraFields;
        return;
      }
      if source == VideoFile && (currentVideo.None? || currentVideo.value == "") {
        status := ChooseVideo;
        return;
      }
      status := Dialing;
      ws := Connecting(user, password, host);
      roiFromBackend := false;
    }

    /** The current socket opened: authenticate. The source is read when the
        socket opens, the camera credentials when it was created. */
    method OnSocketOpen()
      requires ws.Connecting?
      modifies this`ws, this`outbox, this`status
      ensures ws == Open && status == Connected
      ensures outbox == old(outbox) + [AuthFor(source, old(ws).user, old(ws).password, old(ws).host)]
    {
      var auth: Outgoing;
      if source == VideoFile {
        auth := Auth(DummyCredential, DummyCredential, DummyCredential);
      } else {
        auth := Auth(ws.user, ws.password, ws.host);
      }
      outbox := outbox + [auth];
      status := Connected;
      ws := Open;
    }

    method OnSocketError()
      modifies this`status
      ensures status == SocketError
    {
      status := SocketError;
    }

    /** A socket closed; `current` says whether it is the page's current one.
        A close the page asked for is absorbed once; any other arms a single
        reconnect five seconds later, replacing an armed one. */
    method OnSocketClose(current: bool)
      modifies this`status, this`manualClose, this`reconnectPending, this`ws
      ensures status == Disconnected && !manualClose
      ensures old(manualClose) ==> reconnectPending == old(reconnectPending)
      ensures !old(manualClose) ==> reconnectPending
      ensures ws == if current then Closed else old(ws)
    {
      if current {
        ws := Closed;
      }
      status := Disconnected;
      if manualClose {
        manualClose := false;
        return;
      }
      reconnectPending := true;
    }

    /** The armed reconnect fires and runs `connectWS` again. */
    method OnReconnectTimer(user: string, password: string, host: string)
      requires reconnectPending
      modifies this`reconnectPending, this`ws, this`status, this`roiFromBackend
      ensures !reconnectPending
      ensures var refusal := ConnectRefusal(source, user, password, host, currentVideo);
        refusal.None? <==> ws == Connecting(user, password, host) && status == Dialing
    {
      reconnectPending := false;
      ConnectWS(user, password, host);
    }

    /** `resetVideoState`: stop a current video on the backend (`stopOk` is
        the backend's verdict, and only a success shows on the status line),
        forget the video and close an open socket on purpose. */
    method ResetVideoState(stopOk: bool)
      modifies this`currentVideo, this`manualClose, this`ws, this`status
      ensures currentVideo.None?
      ensures status == if old(currentVideo).Some? && old(currentVideo).value != "" && stopOk
                        then PreviousSourceStopped else old(status)
      ensures old(ws) == Open ==> manualClose && ws == Closing
      ensures old(ws) != Open ==> manualClose == old(manualClose) && ws == old(ws)
    {
      if currentVideo.Some? && currentVideo.value != "" && stopOk {
        status := PreviousSourceStopped;
      }
      currentVideo := None;
      if ws == Open {
        manualClose := true;
        ws := Closing;
      }
    }

    /** The Start button: cancel a pending reconnect, reset the video state
        and connect with the current field contents. */
    method ClickStart(user: string, password: string, host: string, stopOk: bool)
      modifies this`reconnectPending, this`currentVideo, this`manualClose, this`ws, this`status, this`roiFromBackend
      ensures !reconnectPending && currentVideo.None?
      ensures source == VideoFile ==> status == ChooseVideo
      ensures source == Camera && ConnectRefusal(Camera, user, password, host, None).None? ==>
                ws == Connecting(user, password, host) && status == Dialing
      ensures source == Camera && ConnectRefusal(Camera, user, password, host, None).Some? ==> status == FillCameraFields
    {
      reconnectPending := false;
      ResetVideoState(stopOk);
      ConnectWS(user, password, host);
    }

    /** Choosing the camera or the video radio button. */
    method SelectSource(s: Source, stopOk: bool)
      modifies this`source, this`currentVideo, this`manualClose, this`ws, this`status
      ensures source == s && currentVideo.None?
      ensures status == if old(currentVideo).Some? && old(currentVideo).value != "" && stopOk
                        then PreviousSourceStopped else old(status)
      ensures old(ws) == Open ==> manualClose && ws == Closing
      ensures old(ws) != Open ==> manualClose == old(manualClose) && ws == old(ws)
    {
      source := s;
      ResetVideoState(stopOk);
    }

    /** `startVideo` with the selected name, after the backend answered;
        `ok` is its verdict. With nothing selected the page only alerts. */
    method StartVideo(name: string, ok: bool)
      modifies this`currentVideo, this`manualClose, this`ws, this`videoConnects, this`status
      ensures name == "" ==> currentVideo == old(currentVideo) && videoConnects == old(videoConnects) &&
                             ws == old(ws) && manualClose == old(manualClose) && status == old(status)
      ensures name != "" && ok ==> currentVideo == Some(name) && videoConnects == old(videoConnects) + 1 &&
                                   status == VideoRunning(name)
      ensures name != "" && !ok ==> currentVideo == old(currentVideo) && videoConnects == old(videoConnects) &&
                                    ws == old(ws) && manualClose == old(manualClose) && status == VideoStartFailed
      ensures name != "" && ok && old(ws) == Open ==> manualClose && ws == Closing
      ensures name != "" && ok && old(ws) != Open ==> manualClose == old(manualClose) && ws == old(ws)
    {
      if name == "" {
        return;
      }
      if !ok {
        status := VideoStartFailed;
        return;
      }
      status := VideoRunning(name);
      currentVideo := Some(name);
      if ws == Open {
        manualClose := true;
        ws := Closing;
      }
      videoConnects := videoConnects + 1;
    }

    /** The one-second connect armed by a video start. */
    method OnVideoConnectTimer(user: string, password: string, host: string)
      requires videoConnects > 0
      modifies this`videoConnects, this`ws, this`status, this`roiFromBackend
      ensures videoConnects == old(videoConnects) - 1
      ensures source == VideoFile && currentVideo.Some? && currentVideo.value != "" ==>
                ws == Connecting(user, password, host) && status == Dialing
    {
      videoConnects := videoConnects - 1;
      ConnectWS(user, password, host);
    }

    /** `stopVideo` after the backend answered; `ok` is its verdict. */
    method StopVideo(ok: bool)
      modifies this`currentVideo, this`manualClose, this`ws, this`status
      ensures ok ==> currentVideo.None? && status == VideoStopped
      ensures !ok ==> currentVideo == old(currentVideo) && ws == old(ws) && manualClose == old(manualClose) &&
                      status == VideoStopFailed
      ensures ok && old(ws) == Open ==> manualClose && ws == Closing
      ensures ok && old(ws) != Open ==> manualClose == old(manualClose) && ws == old(ws)
    {
      if !ok {
        status := VideoStopFailed;
        return;
      }
      status := VideoStopped;
      currentVideo := None;
      if ws == Open {
        manualClose := true;
        ws := Closing;
      }
    }

    // -------------------------------------------------------------------------
    // Inbound messages
    // -------------------------------------------------------------------------

    /** Every parsed text message is timed into the bounded history. */
    method RecordArrival(now: int)
      requires Valid()
      modifies this`statsHistory
      ensures Valid() && statsHistory == KeepLast(old(statsHistory) + [now], StatsHistoryLength)
    {
      ShiftOnceIsKeepLast(statsHistory, now, StatsHistoryLength);
      statsHistory := statsHistory + [now];
      if |statsHistory| > StatsHistoryLength {
        statsHistory := statsHistory[1..];
      }
    }

    /** A `roi` message replaces the polygon as sent and leaves the statistics alone. */
    method OnRoiMessage(points: seq<Point>, now: int)
      requires Valid()
      modifies this`statsHistory, this`roiFromBackend, this`roiPoints
      ensures Valid() && statsHistory == KeepLast(old(statsHistory) + [now], StatsHistoryLength)
      ensures roiPoints == Some(points) && roiFromBackend
    {
      RecordArrival(now);
      roiFromBackend := true;
      roiPoints := Some(points);
    }

    /** Any other text message is merged over the statistics, its fields
        winning, and the status field then says the stream runs. */
    method OnStatsMessage(fields: map<string, string>, now: int, runningText: string)
      requires Valid()
      modifies this`statsHistory, this`lastStats
      ensures Valid() && statsHistory == KeepLast(old(statsHistory) + [now], StatsHistoryLength)
      ensures lastStats == (old(lastStats) + fields)["status" := runningText]
    {
      RecordArrival(now);
      lastStats := (lastStats + fields)["status" := runningText];
    }

    /** A binary frame decoded into an image of this size. */
    method OnImage(size: ImageSize)
      modifies this`image
      ensures image == Some(size)
    {
      image := Some(size);
    }

    // -------------------------------------------------------------------------
    // Region-of-interest editor
    // -------------------------------------------------------------------------

    /** `sendRoi`: the polygon goes out only on an open socket. */
    method SendRoi()
      modifies this`outbox
      ensures outbox == if ws == Open && roiPoints.Some? then old(outbox) + [RoiUpdate(roiPoints.value)] else old(outbox)
    {
      if ws == Open && roiPoints.Some? {
        outbox := outbox + [RoiUpdate(roiPoints.value)];
      }
    }

    /** The reset button: the default rectangle of the current image. */
    method ResetRoi()
      modifies this`roiPoints, this`outbox
      ensures image.Some? ==> roiPoints == Some(DefaultRoi(image.value.width, image.value.height))
      ensures image.Some? && ws == Open ==> outbox == old(outbox) + [RoiUpdate(roiPoints.value)]
      ensures image.None? ==> roiPoints == old(roiPoints) && outbox == old(outbox)
    {
      if image.Some? {
        roiPoints := Some(DefaultRoi(image.value.width, image.value.height));
        SendRoi();
      }
    }

    /** Pointer down on vertex `idx`. */
    method PointerDownVertex(idx: int, pid: int)
      modifies this`draggingVertex, this`pointerId
      ensures draggingVertex == Some(idx) && pointerId == Some(pid)
    {
      draggingVertex := Some(idx);
      pointerId := Some(pid);
    }

    /** Pointer down on the midpoint of edge `edge`, which runs to vertex `edge + 1`. */
    method PointerDownMidpoint(edge: nat, pid: int)
      modifies this`draggingMid, this`pointerId
      ensures draggingMid == Some(edge + 1) && pointerId == Some(pid)
    {
      draggingMid := Some(edge + 1);
      pointerId := Some(pid);
    }

    /** Pointer move at image position `p`: a dragged vertex follows, clamped
        to the image, and the polygon is sent. Without a polygon the handler
        fails before changing anything. */
    method PointerMove(p: Point, pid: int)
      modifies this`roiPoints, this`outbox
      ensures var moving := pointerId == Some(pid) && draggingVertex.Some? && image.Some? && old(roiPoints).Some?;
        && (moving ==> roiPoints == Some(MoveVertex(old(roiPoints).value, draggingVertex.value, p,
                                                    image.value.width, image.value.height)) &&
                       outbox == old(outbox) + (if ws == Open then [RoiUpdate(roiPoints.value)] else []))
        && (!moving ==> roiPoints == old(roiPoints) && outbox == old(outbox))
    {
      if pointerId != Some(pid) {
        return;
      }
      if draggingVertex.Some? && image.Some? {
        if roiPoints.None? {
          return;
        }
        var pts := roiPoints.value;
        roiPoints := Some(MoveVertex(pts, draggingVertex.value, p, image.value.width, image.value.height));
        SendRoi();
      }
    }

    /** Pointer up at image position `p`: the drag ends, and a dragged
        midpoint becomes a new clamped vertex. */
    method PointerUp(p: Point, pid: int)
      modifies this`pointerId, this`draggingVertex, this`draggingMid, this`roiPoints, this`outbox
      ensures old(pointerId) != Some(pid) ==> pointerId == old(pointerId) && draggingVertex == old(draggingVertex)
      ensures old(pointerId) == Some(pid) ==> pointerId.None? && draggingVertex.None?
      ensures var inserting := old(pointerId) == Some(pid) && old(draggingMid).Some? && image.Some? && old(roiPoints).Some?;
        && (inserting ==>
              draggingMid.None? &&
              roiPoints == Some(InsertVertex(old(roiPoints).value, old(draggingMid).value, p,
                                             image.value.width, image.value.height)) &&
              outbox == old(outbox) + (if ws == Open then [RoiUpdate(roiPoints.value)] else []))
        && (!inserting ==> draggingMid == old(draggingMid) && roiPoints == old(roiPoints) && outbox == old(outbox))
    {
      if pointerId != Some(pid) {
        return;
      }
      pointerId := None;
      draggingVertex := None;
      if draggingMid.Some? && image.Some? {
        if roiPoints.None? {
          return;
        }
        var pts := roiPoints.value;
        roiPoints := Some(InsertVertex(pts, draggingMid.value, p, image.value.width, image.value.height));
        draggingMid := None;
        SendRoi();
      }
    }

    method PointerLeave()
      modifies this`pointerId, this`draggingVertex, this`draggingMid
      ensures pointerId.None? && draggingVertex.None? && draggingMid.None?
    {
      pointerId, draggingVertex, draggingMid := None, None, None;
    }

    /** Right click on vertex `idx`: delete it if the polygon keeps at least
        three vertices. */
    method ContextMenu(idx: int)
      modifies this`roiPoints, this`outbox
      ensures old(roiPoints).Some? ==> roiPoints == Some(DeleteVertex(old(roiPoints).value, idx))
      ensures var deleting := old(roiPoints).Some? && |old(roiPoints).value| > MinVertices && 0 <= idx < |old(roiPoints).value|;
        && (deleting ==> outbox == old(outbox) + (if ws == Open then [RoiUpdate(roiPoints.value)] else []))
        && (!deleting ==> roiPoints == old(roiPoints) && outbox == old(outbox))
    {
      if roiPoints.None? {
        return;
      }
      var pts := roiPoints.value;
      if |pts| > MinVertices && 0 <= idx < |pts| {
        roiPoints := Some(DeleteVertex(pts, idx));
        SendRoi();
      }
    }
  }
}
