/**
 * The server's shared state (main.go's TranscodeState) and the operations
 * that change it in place: loading the state file at startup, accepting a
 * submission, and a background runner finishing.  Each operation is one
 * atomic step; the read-write lock that makes them so in the server is not
 * modelled.
 */
module Server {
  import opened Wrappers
  import opened GoStd
  import opened Registry
  import opened Handlers

  /** What reading and decoding the state file gave at startup. */
  datatype StateFile =
    | Missing                      // no state file yet
    | Unreadable                   // reading failed for another reason
    | Decoded(entries: Mappings)   // a JSON object of records
    | Malformed                    // not valid JSON

  class TranscodeState {
    /** The registry, keyed by original video name. */
    var mappings: Mappings
    /** What the last save wrote to the state file, if anything. */
    var snapshot: Option<Mappings>
    /** The transcodes started in the background and not yet finished. */
    var running: seq<Job>

    ghost predicate Valid()
      reads this
    {
      JobsConsistent(mappings, running)
    }

    /** The state the server starts from: an empty registry and no jobs. */
    constructor ()
      ensures Valid()
      ensures mappings == map[] && snapshot == None && running == []
    {
      mappings := map[];
      snapshot := None;
      running := [];
    }

    /**
     * load: a missing file is not an error and leaves the registry as it
     * was; decoded records are merged into it; any other failure is
     * reported and leaves it as it was.
     */
    method Load(file: StateFile) returns (err: bool)
      requires Valid()
      modifies this`mappings
      ensures err <==> file.Unreadable? || file.Malformed?
      ensures file.Decoded? ==> mappings == old(mappings) + file.entries
      ensures !file.Decoded? ==> mappings == old(mappings)
      ensures running == [] ==> Valid()
    {
      match file
      case Missing =>
        err := false;
      case Unreadable =>
        err := true;
      case Decoded(entries) =>
        mappings := mappings + entries;
        err := false;
      case Malformed =>
        err := true;
    }

    /**
     * handleTranscode: answers by the submission policy; when that starts a
     * job, the video's record becomes a fresh "processing" one, the registry
     * is saved, and exactly one background job is added.  Otherwise nothing
     * changes.
     */
    method HandleTranscode(httpMethod: string, videoName: string, stat: StatResult) returns (resp: Response)
      requires Valid()
      modifies this
      ensures Valid()
      ensures resp == Decide(old(mappings), httpMethod, videoName, stat).response
      ensures Decide(old(mappings), httpMethod, videoName, stat).record.None? ==>
        mappings == old(mappings) && snapshot == old(snapshot) && running == old(running)
      ensures Decide(old(mappings), httpMethod, videoName, stat).record.Some? ==>
        && mappings == Admitted(old(mappings), videoName)
        && snapshot == Some(mappings)
        && running == old(running) + [Job(videoName, Stem(videoName))]
    {
      var s := Decide(mappings, httpMethod, videoName, stat);
      resp := s.response;
      if s.record.Some? {
        AdmittedKeepsJobsConsistent(mappings, running, videoName);
        mappings := mappings[videoName := s.record.value];
        snapshot := Some(mappings);
        running := running + [Job(videoName, s.record.value.transcodeDir)];
      }
    }

    /**
     * transcode, once the encoder has exited: the status of the job's
     * record becomes "completed" or "failed" by the encoder's outcome, the
     * registry is saved, and the job is no longer running.
     */
    method Transcode(i: nat, encoderOk: bool)
      requires Valid()
      requires i < |running|
      modifies this
      ensures Valid()
      ensures old(running)[i].videoName in old(mappings)
      ensures mappings == Finished(old(mappings), old(running)[i].videoName, encoderOk)
      ensures mappings[old(running)[i].videoName].transcodeDir == old(running)[i].transcodeDir
      ensures var r := StatusLookup(mappings, StatusPrefix + old(running)[i].videoName);
        && r.Json?
        && r.body["status"] == (if encoderOk then Completed else Failed)
        && ("stream_url" in r.body <==> encoderOk)
        && (encoderOk ==> r.body["stream_url"] == StreamUrl(old(running)[i].transcodeDir))
      ensures running == old(running)[..i] + old(running)[i + 1..]
      ensures snapshot == Some(mappings)
    {
      var videoName := running[i].videoName;
      FinishedKeepsJobsConsistent(mappings, running, i, encoderOk);
      RunnerPublishesJobDir(mappings, running, i, encoderOk);
      var rec := mappings[videoName];
      if !encoderOk {
        mappings := mappings[videoName := rec.(status := "failed")];
      } else {
        mappings := mappings[videoName := rec.(status := "completed")];
      }
      snapshot := Some(mappings);
      running := running[..i] + running[i + 1..];
    }

    /**
     * handleGetVideos: the video files of the directory, in its order, each
     * annotated from the registry, which is only read.
     */
    method HandleGetVideos(httpMethod: string, dir: DirRead) returns (r: ListResponse)
      ensures httpMethod != MethodGet ==> r == ListError(405, "Method not allowed")
      ensures httpMethod == MethodGet && dir.ReadFailed? ==> r == ListError(500, "Could not read videos directory")
      ensures httpMethod == MethodGet && dir.Read? ==> r == Listed(Listing(dir.entries, mappings))
    {
      if httpMethod != MethodGet {
        return ListError(405, "Method not allowed");
      }
      if dir.ReadFailed? {
        return ListError(500, "Could not read videos directory");
      }
      var entries := dir.entries;
      var videos: seq<VideoInfo> := [];
      for i := 0 to |entries|
        invariant videos == Listing(entries[..i], mappings)
      {
        var entry := entries[i];
        assert entries[..i + 1][..i] == entries[..i];
        if entry.isDir {
          continue;
        }
        var name := entry.name;
        var ext := ToLower(Ext(name));
        if ext != ".mp4" && ext != ".mkv" && ext != ".avi" && ext != ".mov" && ext != ".webm" {
          continue;
        }
        var info := VideoInfo(name, false, "", "", "");
        if name in mappings {
          var mapping := mappings[name];
          info := info.(transcoded := mapping.status == "completed");
          info := info.(status := mapping.status, transcodeDir := mapping.transcodeDir);
          if mapping.status == "completed" {
            info := info.(streamUrl := "/hls/" + mapping.transcodeDir + "/master.m3u8");
          }
        }
        assert IsVideoEntry(entry) && info == Info(name, mappings);
        videos := videos + [info];
      }
      assert entries[..|entries|] == entries;
      r := Listed(videos);
    }
  }

  /** The output directory of a.mp4 is a. */
  lemma ExampleStem()
    ensures Ext("a.mp4") == ".mp4" && Stem("a.mp4") == "a"
  {
    ExtUnique("a.mp4", ".mp4");
  }

  /** The status of a completed a.mp4 offers the stream of directory a. */
  lemma ExampleCompletedStatus(m: Mappings)
    requires "a.mp4" in m && m["a.mp4"] == VideoMapping("a.mp4", "a", Completed)
    ensures StatusLookup(m, "/api/status/a.mp4")
      == Json(map["video" := "a.mp4", "transcode_dir" := "a", "status" := "completed",
                  "stream_url" := "/hls/a/master.m3u8"])
  {
    assert TrimPrefix("/api/status/a.mp4", StatusPrefix) == "a.mp4";
    assert StreamUrl("a") == "/hls/a/master.m3u8";
  }

  /**
   * Submit a.mp4, submit it again while it is processing, let the encoder
   * succeed, and ask for its status.
   */
  method SubmitRetryComplete() returns (first: Response, second: Response, status: Response)
    ensures first == Json(map["message" := "Transcoding started", "transcode_dir" := "a", "status" := "processing"])
    ensures second == Json(map["message" := "Video is currently being transcoded", "status" := "processing"])
    ensures status == Json(map["video" := "a.mp4", "transcode_dir" := "a", "status" := "completed",
                               "stream_url" := "/hls/a/master.m3u8"])
  {
    var state := new TranscodeState();
    var loadErr := state.Load(Missing);
    ExampleStem();
    assert !Blocks(map[], "a.mp4");
    first := state.HandleTranscode("POST", "a.mp4", Found);
    assert state.mappings == map["a.mp4" := VideoMapping("a.mp4", "a", Processing)];
    assert state.running == [Job("a.mp4", "a")];
    assert Blocks(state.mappings, "a.mp4");
    second := state.HandleTranscode("POST", "a.mp4", Found);
    state.Transcode(0, true);
    assert state.mappings["a.mp4"] == VideoMapping("a.mp4", "a", Completed);
    ExampleCompletedStatus(state.mappings);
    status := StatusLookup(state.mappings, "/api/status/a.mp4");
  }
}
