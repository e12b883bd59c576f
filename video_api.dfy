/** The people counter's video API and the start of its stream socket: which
    uploaded videos are listed, the upload name check, the current video
    file that start and stop maintain, the credentials taken from the first
    socket message, the choice between the video file and the camera, the
    region updates read between frames, and the two-sample metrics history.
    The file system, ffmpeg and the socket are external; what they answer
    is a parameter. */
module VideoApi {
  import opened Common
  import RoiEditing
  import PersonDetection
  import CounterPage

  const VideosDir: string := "/videos"
  const VideoExtension: string := ".mp4"
  const TempPrefix: string := "tmp_"
  const Dummy: string := "dummy"
  const MetricsHistoryLength: nat := 2

  // ---------------------------------------------------------------------------
  // Listing
  // ---------------------------------------------------------------------------

  /** A converted video: a `.mp4` name in any letter case, not a temporary copy. */
  predicate IsListedVideo(name: string)
  {
    EndsWith(Lower(name), VideoExtension) && !StartsWith(name, TempPrefix)
  }

  /** Python's string order: code points, a proper prefix first. */
  predicate NameLe(a: string, b: string)
  {
    if |a| == 0 then true
    else if |b| == 0 then false
    else if a[0] != b[0] then a[0] < b[0]
    else NameLe(a[1..], b[1..])
  }

  lemma {:induction false} NameLeTotal(a: string, b: string)
    ensures NameLe(a, b) || NameLe(b, a)
    decreases |a|
  {
    if |a| > 0 && |b| > 0 && a[0] == b[0] {
      NameLeTotal(a[1..], b[1..]);
    }
  }

  predicate NamesSorted(s: seq<string>)
  {
    forall i :: 0 <= i < |s| - 1 ==> NameLe(s[i], s[i + 1])
  }

  function InsertName(x: string, s: seq<string>): (r: seq<string>)
    requires NamesSorted(s)
    ensures NamesSorted(r) && multiset(r) == multiset(s) + multiset{x}
    ensures |r| > 0 && (r[0] == x || (|s| > 0 && r[0] == s[0]))
  {
    if |s| == 0 then [x]
    else if NameLe(x, s[0]) then [x] + s
    else
      var tail := InsertName(x, s[1..]);
      NameLeTotal(x, s[0]);
      assert s == [s[0]] + s[1..];
      [s[0]] + tail
  }

  /** `sorted()` on names. */
  function SortNames(s: seq<string>): (r: seq<string>)
    ensures NamesSorted(r) && multiset(r) == multiset(s)
  {
    if |s| == 0 then []
    else
      assert s == s[..|s| - 1] + [s[|s| - 1]];
      InsertName(s[|s| - 1], SortNames(s[..|s| - 1]))
  }

  /** The listed names in directory order. */
  function VideoNames(names: seq<string>): seq<string>
  {
    if |names| == 0 then []
    else VideoNames(names[..|names| - 1]) + (if IsListedVideo(names[|names| - 1]) then [names[|names| - 1]] else [])
  }

  /** Exactly the converted videos of the directory are listed, each as often
      as it occurs. */
  lemma {:induction false} VideoNamesExact(names: seq<string>)
    ensures forall x :: x in VideoNames(names) <==> x in names && IsListedVideo(x)
    ensures forall x :: IsListedVideo(x) ==> multiset(VideoNames(names))[x] == multiset(names)[x]
    decreases |names|
  {
    if |names| > 0 {
      var init := names[..|names| - 1];
      VideoNamesExact(init);
      assert names == init + [names[|names| - 1]];
    }
  }

  /** What listing the videos directory gives: nothing when it did not exist
      (it is then created empty) or could not be read. */
  datatype Listing = Missing | Unreadable | Names(names: seq<string>)

  /** `get_video_files`. */
  method GetVideoFiles(dir: Listing) returns (files: seq<string>)
    ensures NamesSorted(files)
    ensures dir.Names? ==> multiset(files) == multiset(VideoNames(dir.names))
    ensures !dir.Names? ==> files == []
  {
    if !dir.Names? {
      return [];
    }
    var all := dir.names;
    var found: seq<string> := [];
    var i := 0;
    while i < |all|
      invariant 0 <= i <= |all|
      invariant found == VideoNames(all[..i])
    {
      var f := all[i];
      assert all[..i + 1][..i] == all[..i];
      if EndsWith(Lower(f), VideoExtension) && !StartsWith(f, TempPrefix) {
        found := found + [f];
      }
      i := i + 1;
    }
    assert all[..|all|] == all;
    files := SortNames(found);
  }

  // ---------------------------------------------------------------------------
  // Upload
  // ---------------------------------------------------------------------------

  /** The name the raw upload is stored under before conversion. */
  function TempName(filename: string): (t: string)
    ensures StartsWith(t, TempPrefix) && EndsWith(t, filename)
  {
    TempPrefix + filename
  }

  /** A temporary copy is never listed. */
  lemma TempNameHidden(filename: string)
    ensures !IsListedVideo(TempName(filename))
  {
  }

  /** `POST /api/videos/upload` on the set of names in the videos directory:
      the status and the directory afterwards. A name that is not `.mp4` is
      refused untouched; a failed conversion leaves the temporary copy
      behind; a successful one leaves the converted file and removes the copy. */
  function Upload(dir: set<string>, filename: string, convertOk: bool): (result: (nat, set<string>))
    ensures result.0 == 400 <==> !EndsWith(Lower(filename), VideoExtension)
    ensures result.0 == 400 ==> result.1 == dir
    ensures result.0 in {200, 400, 500}
    ensures result.0 == 200 ==> filename in result.1 && TempName(filename) !in result.1
  {
    if !EndsWith(Lower(filename), VideoExtension) then (400, dir)
    else if !convertOk then (500, dir + {TempName(filename)})
    else
      assert |TempName(filename)| > |filename|;
      (200, dir + {filename} - {TempName(filename)})
  }

  function ListedSet(dir: set<string>): set<string>
  {
    set x | x in dir && IsListedVideo(x)
  }

  /** An upload adds at most its own name to the listing, and adds it exactly
      when it succeeds and the name is not itself a temporary name. */
  lemma {:induction false} UploadListing(dir: set<string>, filename: string, convertOk: bool)
    ensures var (status, after) := Upload(dir, filename, convertOk);
      && (status == 200 ==> ListedSet(after) == ListedSet(dir) + (if StartsWith(filename, TempPrefix) then {} else {filename}))
      && (status != 200 ==> ListedSet(after) == ListedSet(dir))
  {
    var (status, after) := Upload(dir, filename, convertOk);
    TempNameHidden(filename);
    if status == 200 {
      assert filename != TempName(filename) by {
        assert |TempName(filename)| > |filename|;
      }
      assert EndsWith(Lower(filename), VideoExtension);
    }
  }

  // ---------------------------------------------------------------------------
  // Current video
  // ---------------------------------------------------------------------------

  /** Python truthiness of `current_video_file`. */
  predicate IsSet(current: Option<string>)
  {
    current.Some? && current.value != ""
  }

  class VideoState {
    var current: Option<string>

    constructor ()
      ensures current.None?
    {
      current := None;
    }

    /** `start_video`. `pathExists` is whether the path exists, `ffmpegOk` whether
        ffmpeg answers, `names` the directory listing and `size` the file's
        size, as `start_video_stream` reads them. */
    method StartVideo(name: string, pathExists: bool, ffmpegOk: bool, names: set<string>, size: int)
      returns (status: nat)
      modifies this
      ensures !pathExists ==> status == 404 && current == old(current)
      ensures pathExists && ffmpegOk && name in names && size > 0 ==> status == 200 && current == Some(name)
      ensures pathExists && !(ffmpegOk && name in names && size > 0) ==> status == 500 && current.None?
    {
      if !pathExists {
        return 404;
      }
      current := Some(name);
      var started := StartVideoStream(name, ffmpegOk, names, size);
      if started {
        return 200;
      }
      current := None;
      return 500;
    }

    /** `start_video_stream`: ffmpeg must answer, the name must be listed
        exactly, and the file must not be empty. */
    method StartVideoStream(name: string, ffmpegOk: bool, names: set<string>, size: int) returns (ok: bool)
      modifies this
      ensures ok <==> ffmpegOk && name in names && size > 0
      ensures ok ==> current == Some(name)
      ensures !ok ==> current == old(current)
    {
      if !ffmpegOk {
        return false;
      }
      if name !in names {
        return false;
      }
      if size == 0 || size < 0 {
        return false;
      }
      current := Some(name);
      return true;
    }

    /** `stop_video`: whether a video was stopped. Afterwards no video is
        set, so a second stop stops nothing. */
    method StopVideo() returns (stopped: bool)
      modifies this
      ensures stopped <==> IsSet(old(current))
      ensures !IsSet(current)
      ensures stopped ==> current.None?
      ensures !stopped ==> current == old(current)
    {
      if IsSet(current) {
        current := None;
        return true;
      }
      return false;
    }
  }

  // ---------------------------------------------------------------------------
  // Socket start
  // ---------------------------------------------------------------------------

  /** A JSON object of string fields; `None` when receiving or parsing the
      first message failed. */
  type Json = map<string, string>

  function Get(m: Json, key: string, default: string): (v: string)
    ensures key in m ==> v == m[key]
    ensures key !in m ==> v == default
  {
    if key in m then m[key] else default
  }

  /** The credentials of a new socket: those of an `auth` first message, with
      `dummy` for a missing field, and `dummy` throughout otherwise. */
  function Credentials(first: Option<Json>): (c: (string, string, string))
    ensures first.None? ==> c == (Dummy, Dummy, Dummy)
    ensures first.Some? && Get(first.value, "type", "") != "auth" ==> c == (Dummy, Dummy, Dummy)
    ensures first.Some? && Get(first.value, "type", "") == "auth" ==>
              c == (Get(first.value, "user", Dummy), Get(first.value, "password", Dummy), Get(first.value, "host", Dummy))
  {
    if first.None? then (Dummy, Dummy, Dummy)
    else
      var m := first.value;
      if "type" in m && m["type"] == "auth" then (Get(m, "user", Dummy), Get(m, "password", Dummy), Get(m, "host", Dummy))
      else (Dummy, Dummy, Dummy)
  }

  /** The JSON object the page sends for an `Auth` message. */
  function AuthJson(auth: CounterPage.Outgoing): Json
    requires auth.Auth?
  {
    map["type" := "auth", "user" := auth.user, "password" := auth.password, "host" := auth.host]
  }

  /** The credentials the page authenticates with are the ones the server
      uses; a page showing a video authenticates with the placeholders, the
      same the server falls back to without an `auth` message. */
  lemma {:induction false} AuthRoundTrip(source: CounterPage.Source, user: string, password: string, host: string)
    ensures var auth := CounterPage.AuthFor(source, user, password, host);
      Credentials(Some(AuthJson(auth))) == (auth.user, auth.password, auth.host)
    ensures source == CounterPage.VideoFile ==>
      Credentials(Some(AuthJson(CounterPage.AuthFor(source, user, password, host)))) == Credentials(None)
  {
    var auth := CounterPage.AuthFor(source, user, password, host);
    var m := AuthJson(auth);
    assert "type" in m && m["type"] == "auth";
    assert m["user"] == auth.user && m["password"] == auth.password && m["host"] == auth.host;
  }

  /** `os.path.join(VIDEOS_DIR, name)`: an absolute name replaces the directory. */
  function JoinVideo(name: string): (path: string)
    ensures StartsWith(name, "/") ==> path == name
    ensures !StartsWith(name, "/") ==> path == VideosDir + "/" + name
  {
    if StartsWith(name, "/") then name else VideosDir + "/" + name
  }

  function CameraUrl(user: string, password: string, host: string): (url: string)
    ensures StartsWith(url, "rtsp://" + user + ":" + password + "@" + host + ":554/")
  {
    var prefix := "rtsp://" + user + ":" + password + "@" + host + ":554/";
    assert prefix + "axis-media/media.amp?streamprofile=stream1" == (prefix + "axis-media/media.amp?streamprofile=stream1")[..|prefix|] + (prefix + "axis-media/media.amp?streamprofile=stream1")[|prefix|..];
    prefix + "axis-media/media.amp?streamprofile=stream1"
  }

  datatype StreamSource = VideoFile(path: string) | Camera(url: string)

  /** The source chosen when the socket starts and the current video after:
      the current video's file when one is set, else the camera with the
      socket's credentials, and then no current video at all. */
  function SelectSource(current: Option<string>, user: string, password: string, host: string): (r: (StreamSource, Option<string>))
    ensures r.0.VideoFile? <==> IsSet(current)
    ensures IsSet(current) ==> r.0 == VideoFile(JoinVideo(current.value)) && r.1 == current
    ensures !IsSet(current) ==> r.0 == Camera(CameraUrl(user, password, host)) && r.1.None?
  {
    if IsSet(current) then (VideoFile(JoinVideo(current.value)), current)
    else (Camera(CameraUrl(user, password, host)), None)
  }

  /** A page that shows a video while the server has no current video (it
      was stopped in between) makes the server dial the placeholder camera. */
  lemma {:induction false} VideoPageWithoutVideoDialsPlaceholder(user: string, password: string, host: string, current: Option<string>)
    requires !IsSet(current)
    ensures var (u, p, h) := Credentials(Some(AuthJson(CounterPage.AuthFor(CounterPage.VideoFile, user, password, host))));
      SelectSource(current, u, p, h).0 == Camera(CameraUrl(Dummy, Dummy, Dummy))
  {
    AuthRoundTrip(CounterPage.VideoFile, user, password, host);
  }

  // ---------------------------------------------------------------------------
  // Between frames
  // ---------------------------------------------------------------------------

  /** A text message read between two frames. A `roi` message without a
      `points` field carries `None`, which clears the region. */
  datatype Inbound = RoiMessage(points: Option<seq<PersonDetection.RealPoint>>) | OtherMessage | Malformed

  /** The region after reading `msgs`: the last region message wins, and a
      message that cannot be parsed ends the reading. */
  function RoiAfter(roi: Option<seq<PersonDetection.RealPoint>>, msgs: seq<Inbound>): Option<seq<PersonDetection.RealPoint>>
    decreases |msgs|
  {
    if |msgs| == 0 || msgs[0].Malformed? then roi
    else RoiAfter(if msgs[0].RoiMessage? then msgs[0].points else roi, msgs[1..])
  }

  /** Without a region message before the first malformed one, the region is
      unchanged; after one, it is the last such message's points. */
  lemma {:induction false} RoiAfterLast(roi: Option<seq<PersonDetection.RealPoint>>, msgs: seq<Inbound>, k: nat)
    requires k < |msgs| && msgs[k].RoiMessage?
    requires forall i :: 0 <= i < k ==> !msgs[i].Malformed?
    requires forall i :: k < i < |msgs| ==> msgs[i].OtherMessage?
    ensures RoiAfter(roi, msgs) == msgs[k].points
    decreases k
  {
    if k == 0 {
      RoiAfterOthers(msgs[0].points, msgs[1..]);
    } else {
      RoiAfterLast(if msgs[0].RoiMessage? then msgs[0].points else roi, msgs[1..], k - 1);
    }
  }

  lemma {:induction false} RoiAfterOthers(roi: Option<seq<PersonDetection.RealPoint>>, msgs: seq<Inbound>)
    requires forall i :: 0 <= i < |msgs| ==> msgs[i].OtherMessage?
    ensures RoiAfter(roi, msgs) == roi
    decreases |msgs|
  {
    if |msgs| > 0 {
      RoiAfterOthers(roi, msgs[1..]);
    }
  }

  /** The read loop before each detection: the region saved and used next,
      and how many messages were taken. */
  method ReadPending(roi: Option<seq<PersonDetection.RealPoint>>, msgs: seq<Inbound>)
    returns (newRoi: Option<seq<PersonDetection.RealPoint>>, taken: nat)
    ensures newRoi == RoiAfter(roi, msgs)
    ensures taken <= |msgs| && (taken < |msgs| ==> msgs[taken].Malformed?)
    ensures forall i :: 0 <= i < taken ==> !msgs[i].Malformed?
  {
    newRoi, taken := roi, 0;
    while taken < |msgs|
      invariant taken <= |msgs|
      invariant RoiAfter(newRoi, msgs[taken..]) == RoiAfter(roi, msgs)
      invariant forall i :: 0 <= i < taken ==> !msgs[i].Malformed?
    {
      var m := msgs[taken];
      if m.Malformed? {
        return;
      }
      if m.RoiMessage? {
        newRoi := m.points;
      }
      assert msgs[taken..][1..] == msgs[taken + 1..];
      taken := taken + 1;
    }
  }

  /** The page's polygon as the server receives it. */
  function FromPage(pts: seq<RoiEditing.Point>): (r: seq<PersonDetection.RealPoint>)
    ensures |r| == |pts| && forall i :: 0 <= i < |pts| ==> r[i] == PersonDetection.RealPoint(pts[i].x, pts[i].y)
  {
    seq(|pts|, i requires 0 <= i < |pts| => PersonDetection.RealPoint(pts[i].x, pts[i].y))
  }

  /** The page's default rectangle on a frame larger than 100 pixels each way
      makes the detector analyse exactly the rectangle's inside. */
  lemma {:induction false} DefaultRoiCrop(w: int, h: int)
    requires w > 100 && h > 100
    ensures var pts := PersonDetection.RegionOf(Some(FromPage(RoiEditing.DefaultRoi(w as real, h as real))));
      PersonDetection.CropFor(pts, w, h) == PersonDetection.Window(50, w - 50, 50, h - 50)
  {
    var pts := DefaultRegion(w, h);
    RectangleCrop(pts, w, h);
  }

  /** A rectangle inset by 50 on every side crops to its own inside. */
  lemma RectangleCrop(pts: seq<PersonDetection.IPoint>, w: int, h: int)
    requires w > 100 && h > 100 && |pts| >= 3
    requires PersonDetection.Xs(pts) == [50, w - 50, w - 50, 50]
    requires PersonDetection.Ys(pts) == [50, 50, h - 50, h - 50]
    ensures PersonDetection.CropFor(Some(pts), w, h) == PersonDetection.Window(50, w - 50, 50, h - 50)
  {
    var xs, ys := PersonDetection.Xs(pts), PersonDetection.Ys(pts);
    CornerBounds(50, w - 50);
    CornerBounds2(50, h - 50);
    assert PersonDetection.MinOf(xs) == 50 && PersonDetection.MaxOf(xs) == w - 50;
    assert PersonDetection.MinOf(ys) == 50 && PersonDetection.MaxOf(ys) == h - 50;
    assert PersonDetection.CropFor(Some(pts), w, h) == PersonDetection.Window(
      PersonDetection.Max(0, 50), PersonDetection.Min(w, w - 50), PersonDetection.Max(0, 50), PersonDetection.Min(h, h - 50));
  }

  /** The default rectangle as the detector reads it. */
  lemma {:induction false} DefaultRegion(w: int, h: int) returns (pts: seq<PersonDetection.IPoint>)
    requires w > 100 && h > 100
    ensures PersonDetection.RegionOf(Some(FromPage(RoiEditing.DefaultRoi(w as real, h as real)))) == Some(pts)
    ensures PersonDetection.Xs(pts) == [50, w - 50, w - 50, 50]
    ensures PersonDetection.Ys(pts) == [50, 50, h - 50, h - 50]
  {
    var roi := FromPage(RoiEditing.DefaultRoi(w as real, h as real));
    pts := PersonDetection.ToIPoints(roi);
    PadTrunc(w);
    PadTrunc(h);
    assert PersonDetection.Trunc(RoiEditing.DefaultPad) == 50;
    assert pts == [PersonDetection.IPoint(50, 50), PersonDetection.IPoint(w - 50, 50),
                   PersonDetection.IPoint(w - 50, h - 50), PersonDetection.IPoint(50, h - 50)];
  }

  lemma PadTrunc(n: int)
    requires n > 100
    ensures PersonDetection.Trunc(n as real - RoiEditing.DefaultPad) == n - 50
  {
    assert n as real - RoiEditing.DefaultPad == (n - 50) as real;
  }

  lemma CornerBounds(lo: int, hi: int)
    requires lo < hi
    ensures PersonDetection.MinOf([lo, hi, hi, lo]) == lo && PersonDetection.MaxOf([lo, hi, hi, lo]) == hi
  {
  }

  lemma CornerBounds2(lo: int, hi: int)
    requires lo < hi
    ensures PersonDetection.MinOf([lo, lo, hi, hi]) == lo && PersonDetection.MaxOf([lo, lo, hi, hi]) == hi
  {
  }

  // ---------------------------------------------------------------------------
  // Metrics history
  // ---------------------------------------------------------------------------

  /** One per-second sample of the host metrics; the values are not modelled. */
  datatype MetricsSample = MetricsSample(timestamp: real)

  class MetricsHistory {
    var samples: seq<MetricsSample>

    ghost predicate Valid()
      reads this
    {
      |samples| <= MetricsHistoryLength
    }

    constructor ()
      ensures Valid() && samples == []
    {
      samples := [];
    }

    /** Append the sample and drop the oldest beyond two. */
    method Push(m: MetricsSample)
      requires Valid()
      modifies this
      ensures Valid() && samples == KeepLast(old(samples) + [m], MetricsHistoryLength)
      ensures samples[|samples| - 1] == m
    {
      ShiftOnceIsKeepLast(samples, m, MetricsHistoryLength);
      KeepLastAppend(samples, m, MetricsHistoryLength);
      samples := samples + [m];
      if |samples| > MetricsHistoryLength {
        samples := samples[1..];
      }
    }
  }
}
