/** The backend's view of the X11 windows of the AirPlay receiver: the
    presence probe, the choice of the largest window, the priority order of
    the window list, and the name check applied to recording files. */
module WindowList {
  import opened Common

  /** A window as reported by the window listing. */
  datatype Window = Window(id: string, name: string, width: int, height: int, kind: string)

  /** What the window lookup returned: an error, or an id with a size. */
  datatype FindResult = FindFailed | Found(id: string, width: int, height: int)

  /** A window counts as present only if both sides are at least this long. */
  const MinWindowSide: int := 100

  function Area(w: Window): int
  {
    w.width * w.height
  }

  // ---------------------------------------------------------------------------
  // Presence probe
  // ---------------------------------------------------------------------------

  /** `getWindowCountAndID`: one window with its id, or none and the empty id. */
  function WindowCountAndID(f: FindResult): (r: (nat, string))
    ensures r.0 <= 1
    ensures r.0 == 1 <==> r.1 != ""
    ensures r.0 == 1 <==> f.Found? && f.id != "" && f.width >= MinWindowSide && f.height >= MinWindowSide
    ensures r.0 == 1 ==> r.1 == f.id
  {
    match f
    case FindFailed => (0, "")
    case Found(id, width, height) =>
      if id == "" || width < MinWindowSide || height < MinWindowSide then (0, "") else (1, id)
  }

  // ---------------------------------------------------------------------------
  // Largest window
  // ---------------------------------------------------------------------------

  const NoWindow: Window := Window("", "", 0, 0, "")

  /** `findLargestWindow`: the zero window for an empty list, otherwise the
      first window whose area no other window exceeds. */
  method FindLargestWindow(windows: seq<Window>) returns (largest: Window)
    ensures |windows| == 0 ==> largest == NoWindow
    ensures |windows| > 0 ==> largest in windows
    ensures forall j :: 0 <= j < |windows| ==> Area(windows[j]) <= Area(largest)
    ensures |windows| > 0 ==>
              exists k :: 0 <= k < |windows| && windows[k] == largest &&
                forall j :: 0 <= j < k ==> Area(windows[j]) < Area(largest)
  {
    if |windows| == 0 {
      return NoWindow;
    }
    largest := windows[0];
    var maxArea := Area(largest);
    ghost var k := 0;
    var i := 1;
    while i < |windows|
      invariant 1 <= i <= |windows|
      invariant 0 <= k < i && windows[k] == largest && maxArea == Area(largest)
      invariant forall j :: 0 <= j < i ==> Area(windows[j]) <= maxArea
      invariant forall j :: 0 <= j < k ==> Area(windows[j]) < maxArea
    {
      var area := Area(windows[i]);
      if area > maxArea {
        largest, maxArea, k := windows[i], area, i;
      }
      i := i + 1;
    }
  }

  // ---------------------------------------------------------------------------
  // Window order
  // ---------------------------------------------------------------------------

  /** Priority of a window type in the window list; unknown types rank with "Small". */
  function Priority(kind: string): (p: nat)
    ensures p <= 6
    ensures p == 0 <==> kind !in {"UxPlay", "AirPlay", "Video", "OpenGL", "GStreamer", "Large"}
  {
    if kind == "UxPlay" then 6
    else if kind == "AirPlay" then 5
    else if kind == "Video" then 4
    else if kind == "OpenGL" then 3
    else if kind == "GStreamer" then 2
    else if kind == "Large" then 1
    else 0
  }

  /** The comparator of the window list: higher priority first, then larger area. */
  predicate SortsBefore(a: Window, b: Window)
  {
    if Priority(a.kind) != Priority(b.kind) then Priority(a.kind) > Priority(b.kind)
    else Area(a) > Area(b)
  }

  /** The comparator is a strict weak order, so the sorted list is determined
      up to windows with the same priority and the same area. */
  lemma SortsBeforeIsStrictWeakOrder(a: Window, b: Window, c: Window)
    ensures !SortsBefore(a, a)
    ensures SortsBefore(a, b) ==> !SortsBefore(b, a)
    ensures SortsBefore(a, b) && SortsBefore(b, c) ==> SortsBefore(a, c)
    ensures !SortsBefore(a, b) && !SortsBefore(b, c) ==> !SortsBefore(a, c)
    ensures !SortsBefore(a, b) && !SortsBefore(b, a) <==>
              Priority(a.kind) == Priority(b.kind) && Area(a) == Area(b)
  {
  }

  predicate SortedWindows(s: seq<Window>)
  {
    forall i, j :: 0 <= i < j < |s| ==> !SortsBefore(s[j], s[i])
  }

  function InsertWindow(w: Window, s: seq<Window>): (r: seq<Window>)
    requires SortedWindows(s)
    ensures SortedWindows(r)
    ensures multiset(r) == multiset(s) + multiset{w}
    decreases |s|
  {
    if |s| == 0 || !SortsBefore(s[0], w) then
      InsertFrontSorted(w, s);
      [w] + s
    else
      var tail := InsertWindow(w, s[1..]);
      assert s == [s[0]] + s[1..];
      InsertBehindSorted(w, s, tail);
      [s[0]] + tail
  }

  lemma InsertFrontSorted(w: Window, s: seq<Window>)
    requires SortedWindows(s)
    requires |s| == 0 || !SortsBefore(s[0], w)
    ensures SortedWindows([w] + s)
  {
    forall j | 0 <= j < |s|
      ensures !SortsBefore(s[j], w)
    {
      SortsBeforeIsStrictWeakOrder(s[j], s[0], w);
    }
    var r := [w] + s;
    forall i, j | 0 <= i < j < |r|
      ensures !SortsBefore(r[j], r[i])
    {
      if i > 0 {
        assert r[i] == s[i - 1] && r[j] == s[j - 1];
      }
    }
  }

  lemma InsertBehindSorted(w: Window, s: seq<Window>, tail: seq<Window>)
    requires SortedWindows(s) && |s| > 0 && SortsBefore(s[0], w)
    requires SortedWindows(tail) && multiset(tail) == multiset(s[1..]) + multiset{w}
    ensures SortedWindows([s[0]] + tail)
  {
    SortsBeforeIsStrictWeakOrder(s[0], w, w);
    forall j | 0 <= j < |tail|
      ensures !SortsBefore(tail[j], s[0])
    {
      assert tail[j] in multiset(tail);
      if tail[j] != w {
        assert tail[j] in multiset(s[1..]);
        var k :| 0 <= k < |s[1..]| && s[1..][k] == tail[j];
        assert s[k + 1] == tail[j];
      }
    }
    var r := [s[0]] + tail;
    forall i, j | 0 <= i < j < |r|
      ensures !SortsBefore(r[j], r[i])
    {
      if i > 0 {
        assert r[i] == tail[i - 1] && r[j] == tail[j - 1];
      } else {
        assert r[j] == tail[j - 1];
      }
    }
  }

  /** The window list in priority order (the `sort.Slice` of `getUxPlayWindows`). */
  function SortWindows(windows: seq<Window>): (r: seq<Window>)
    ensures SortedWindows(r)
    ensures multiset(r) == multiset(windows)
  {
    if |windows| == 0 then []
    else
      assert windows == windows[..|windows| - 1] + [windows[|windows| - 1]];
      InsertWindow(windows[|windows| - 1], SortWindows(windows[..|windows| - 1]))
  }

  // ---------------------------------------------------------------------------
  // Recording file names
  // ---------------------------------------------------------------------------

  const MaxRecordNameLength: nat := 128

  /** Go's `filepath.Ext` with `/` as separator: the suffix from the last dot
      of the final path element, or the empty string if that element has none. */
  function Ext(path: string): (r: string)
    ensures EndsWith(path, r)
    ensures r != "" ==> r[0] == '.' && forall i :: 1 <= i < |r| ==> r[i] != '.' && r[i] != '/'
  {
    if |path| == 0 then ""
    else
      var c := path[|path| - 1];
      if c == '/' then ""
      else if c == '.' then "."
      else
        var e := Ext(path[..|path| - 1]);
        if e == "" then "" else e + [c]
  }

  /** The number of bytes of the UTF-8 encoding of `c`. */
  function Utf8Width(c: char): (n: nat)
    ensures 1 <= n <= 4
    ensures n == 1 <==> c as int < 0x80
  {
    if c as int < 0x80 then 1
    else if c as int < 0x800 then 2
    else if c as int < 0x1_0000 then 3
    else 4
  }

  /** Go's `len` of a string: the length of its UTF-8 encoding in bytes. It
      equals the number of characters exactly when every character is ASCII. */
  function Utf8Length(s: string): (n: nat)
    ensures |s| <= n <= 4 * |s|
    ensures n == |s| <==> forall i :: 0 <= i < |s| ==> s[i] as int < 0x80
  {
    if |s| == 0 then 0
    else
      var k := |s| - 1;
      var n := Utf8Length(s[..k]) + Utf8Width(s[k]);
      assert forall i :: 0 <= i < k ==> s[..k][i] == s[i];
      n
  }

  /** The check guarding download and deletion of a recording. The name is
      bounded in bytes; `Ext` over characters agrees with Go's `filepath.Ext`
      over bytes, since no multi-byte UTF-8 sequence holds a '.' or '/' byte. */
  predicate ValidRecordName(filename: string)
  {
    filename != "" && Utf8Length(filename) <= MaxRecordNameLength && Ext(filename) == ".mp4"
  }

  /** A name passes exactly when it is non-empty, its UTF-8 encoding has at
      most 128 bytes, and it ends in ".mp4". */
  lemma {:induction false} ValidRecordNameIffMp4(filename: string)
    ensures ValidRecordName(filename) <==> 0 < |filename| && Utf8Length(filename) <= MaxRecordNameLength && EndsWith(filename, ".mp4")
  {
    if EndsWith(filename, ".mp4") {
      var n := |filename|;
      var p := filename[..n - 1];
      var q := p[..n - 2];
      var u := q[..n - 3];
      assert filename[n - 4..][0] == '.' && filename[n - 4..][1] == 'm';
      assert filename[n - 4..][2] == 'p' && filename[n - 4..][3] == '4';
      assert filename[n - 1] == '4' && p[n - 2] == 'p' && q[n - 3] == 'm' && u[n - 4] == '.';
      assert Ext(u) == ".";
      assert Ext(q) == ".m";
      assert Ext(p) == ".mp";
      assert Ext(filename) == ".mp4";
    }
  }
}
