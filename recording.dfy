/** The single-slot screen recorder of the AirPlay backend: at most one
    ffmpeg process records at a time, a stop hands back the file it wrote,
    and the records directory lists only finished-looking `.mp4` files.
    Starting a process, killing it and reading the directory are external;
    their outcomes are parameters. */
module Recording {
  import opened Common
  import opened WindowList

  type Pid = nat

  const AlreadyInProgress: string := "Recording already in progress"
  const NoActiveRecording: string := "No active recording to stop"
  const DefaultPrefix: string := "airplay-"
  const RecordExtension: string := ".mp4"

  /** Why a start failed. */
  datatype StartError = InProgress | MkdirFailed | FfmpegFailed

  function StartErrorMessage(e: StartError): string
  {
    match e
    case InProgress => AlreadyInProgress
    case MkdirFailed => "failed to create records dir"
    case FfmpegFailed => "failed to start ffmpeg"
  }

  /** The name used when the request names no file; `stamp` is the local time
      written as `YYYYMMDD-hhmmss`. */
  function DefaultName(stamp: string): (r: string)
    ensures StartsWith(r, DefaultPrefix) && EndsWith(r, RecordExtension)
    ensures |r| == |stamp| + 12
  {
    DefaultPrefix + stamp + RecordExtension
  }

  /** A default name passes the download and delete check of the records API. */
  lemma {:induction false} DefaultNameIsValidRecordName(stamp: string)
    requires |stamp| == 15 && forall i :: 0 <= i < |stamp| ==> stamp[i] as int < 0x80
    ensures ValidRecordName(DefaultName(stamp))
  {
    var name := DefaultName(stamp);
    assert forall i :: 0 <= i < |name| ==> name[i] as int < 0x80 by {
      forall i | 0 <= i < |name|
        ensures name[i] as int < 0x80
      {
        if 8 <= i < 23 {
          assert name[i] == stamp[i - 8];
        }
      }
    }
    ValidRecordNameIffMp4(name);
  }

  /** HTTP status of `POST /api/record/start` for the start's outcome. */
  function StartStatus(err: Option<StartError>): (code: nat)
    ensures code == 200 <==> err.None?
    ensures code == 409 <==> err == Some(InProgress)
    ensures code in {200, 409, 500}
  {
    match err
    case None => 200
    case Some(e) => if StartErrorMessage(e) == AlreadyInProgress then 409 else 500
  }

  /** HTTP status of `POST /api/record/stop`: any error is a bad request, the
      kill's error included. */
  function StopStatus(err: Option<string>): (code: nat)
    ensures code == 200 <==> err.None?
    ensures code == 400 <==> err.Some?
  {
    if err.None? then 200 else 400
  }

  class Recorder {
    var cmd: Option<Pid>
    var file: string
    var start: Option<int>    // None: Go's zero time

    /** A process runs exactly while a file name is held, and a running
        process has a start time. */
    ghost predicate Valid()
      reads this
    {
      (cmd.Some? <==> file != "") && (cmd.Some? ==> start.Some?)
    }

    constructor ()
      ensures Valid() && cmd.None? && file == ""
    {
      cmd, file, start := None, "", None;
    }

    /** `StartRecording`. `stamp` is the clock formatted for a default name,
        `mkdirOk` whether the records directory could be created, `spawned`
        the ffmpeg process if it started. */
    method StartRecording(filename: string, stamp: string, mkdirOk: bool, spawned: Option<Pid>, now: int)
      returns (err: Option<StartError>)
      requires Valid()
      modifies this
      ensures Valid()
      ensures old(cmd).Some? ==> err == Some(InProgress)
      ensures err.Some? ==> cmd == old(cmd) && file == old(file) && start == old(start)
      ensures old(cmd).None? && !mkdirOk ==> err == Some(MkdirFailed)
      ensures old(cmd).None? && mkdirOk && spawned.None? ==> err == Some(FfmpegFailed)
      ensures old(cmd).None? && mkdirOk && spawned.Some? ==>
                err.None? && cmd == spawned && start == Some(now) &&
                file == (if filename == "" then DefaultName(stamp) else filename)
    {
      if cmd.Some? {
        return Some(InProgress);
      }
      var name := filename;
      if name == "" {
        name := DefaultName(stamp);
      }
      if !mkdirOk {
        return Some(MkdirFailed);
      }
      if spawned.None? {
        return Some(FfmpegFailed);
      }
      cmd, file, start := spawned, name, Some(now);
      return None;
    }

    /** `StopRecording`: the file and the seconds recorded so far; `killOk`
        is whether killing the process succeeded. The slot is freed either way. */
    method StopRecording(now: int, killOk: bool) returns (stopped: string, seconds: real, err: Option<string>)
      requires Valid()
      modifies this`cmd, this`file
      ensures Valid() && cmd.None? && file == ""
      ensures old(cmd).None? ==> stopped == "" && seconds == 0.0 && err == Some(NoActiveRecording)
      ensures old(cmd).Some? ==> stopped == old(file) && stopped != "" && seconds == (now - start.value) as real / 1000.0
      ensures old(cmd).Some? ==> (err.None? <==> killOk)
    {
      if cmd.None? {
        return "", 0.0, Some(NoActiveRecording);
      }
      seconds := (now - start.value) as real / 1000.0;
      err := if killOk then None else Some("kill failed");
      stopped := file;
      cmd, file := None, "";
    }
  }

  // ---------------------------------------------------------------------------
  // Listing
  // ---------------------------------------------------------------------------

  /** A directory entry with what the listing reads about it: whether its
      metadata could be read, its size and modification time, and the
      duration ffprobe reports (0 when ffprobe fails). */
  datatype DirEntry = DirEntry(name: string, isDir: bool, infoOk: bool, size: int, modTime: int, duration: real)

  datatype RecordFile = RecordFile(filename: string, size: int, duration: real, createdAt: int)

  /** The result of reading the records directory. */
  datatype ReadDir = Missing | Unreadable | Entries(entries: seq<DirEntry>)

  predicate Listed(e: DirEntry)
  {
    !e.isDir && Ext(e.name) == RecordExtension && e.infoOk
  }

  function ToRecord(e: DirEntry): RecordFile
  {
    RecordFile(e.name, e.size, e.duration, e.modTime)
  }

  /** The record one entry contributes: its own when it is listed, none otherwise. */
  function RecordOf(e: DirEntry): seq<RecordFile>
  {
    if Listed(e) then [ToRecord(e)] else []
  }

  /** The records of the listed entries, in directory order. */
  function Records(entries: seq<DirEntry>): seq<RecordFile>
  {
    if |entries| == 0 then []
    else Records(entries[..|entries| - 1]) + RecordOf(entries[|entries| - 1])
  }

  lemma RecordsAppend(entries: seq<DirEntry>, e: DirEntry)
    ensures Records(entries + [e]) == Records(entries) + (if Listed(e) then [ToRecord(e)] else [])
  {
    assert (entries + [e])[..|entries|] == entries;
  }

  /** Every listed record is a `.mp4` file that is not a directory, and every
      such readable entry is listed. */
  lemma {:induction false} RecordsAreMp4Files(entries: seq<DirEntry>)
    ensures forall r :: r in Records(entries) ==>
              EndsWith(r.filename, RecordExtension) &&
              exists e :: e in entries && !e.isDir && e.name == r.filename
    ensures forall e :: e in entries && Listed(e) ==> ToRecord(e) in Records(entries)
    decreases |entries|
  {
    if |entries| > 0 {
      var init := entries[..|entries| - 1];
      RecordsAreMp4Files(init);
      assert forall x :: x in init ==> x in entries;
      assert forall x :: x in entries ==> x == entries[|entries| - 1] || x in init;
    }
  }

  /** `ListRecordFiles`: a missing directory lists nothing without error, an
      unreadable one is an error, otherwise the entries are filtered in order. */
  method ListRecordFiles(dir: ReadDir) returns (files: seq<RecordFile>, failed: bool)
    ensures dir.Missing? ==> files == [] && !failed
    ensures dir.Unreadable? ==> failed
    ensures dir.Entries? ==> files == Records(dir.entries) && !failed
  {
    files := [];
    match dir
    case Missing => return files, false;
    case Unreadable => return [], true;
    case Entries(entries) =>
      var i := 0;
      while i < |entries|
        invariant 0 <= i <= |entries|
        invariant files == Records(entries[..i])
      {
        var entry := entries[i];
        assert entries[..i + 1] == entries[..i] + [entry];
        RecordsAppend(entries[..i], entry);
        i := i + 1;
        if entry.isDir || Ext(entry.name) != RecordExtension {
          continue;
        }
        if !entry.infoOk {
          continue;
        }
        files := files + [RecordFile(entry.name, entry.size, entry.duration, entry.modTime)];
      }
      assert entries[..|entries|] == entries;
      return files, false;
  }
}
