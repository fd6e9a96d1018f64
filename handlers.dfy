/**
 * The decisions the HTTP handlers of main.go take, as functions of the
 * registry and of what the filesystem reported: the submission policy of
 * handleTranscode, the lookup of handleStatus, the per-file annotation and
 * filtering of handleGetVideos, and the headers of corsHandler.
 */
module Handlers {
  import opened Wrappers
  import opened GoStd
  import opened Registry

  const MethodGet: string := "GET"
  const MethodPost: string := "POST"
  const MethodOptions: string := "OPTIONS"

  /** An HTTP answer: an error status with its text, or a JSON object of strings. */
  datatype Response = Error(code: int, message: string) | Json(body: map<string, string>)

  /** What os.Stat said about the source video. */
  datatype StatResult = Found | NotFound | StatFailed

  /** A submission's answer and, when it starts a job, the record it inserts. */
  datatype Submission = Submission(response: Response, record: Option<VideoMapping>)

  /**
   * A well-formed request: a POST naming a video that os.Stat did not report
   * missing.  Any other os.Stat error lets the request through.
   */
  predicate Accepted(httpMethod: string, videoName: string, stat: StatResult) {
    httpMethod == MethodPost && videoName != "" && stat != NotFound
  }

  /** A record that stops a new job: one already completed or still processing. */
  predicate Blocks(m: Mappings, videoName: string) {
    videoName in m && (m[videoName].status == Completed || m[videoName].status == Processing)
  }

  /** The submission policy of handleTranscode. */
  function Decide(m: Mappings, httpMethod: string, videoName: string, stat: StatResult): (s: Submission)
    ensures s.response.Error? <==> !Accepted(httpMethod, videoName, stat)
    ensures httpMethod != MethodPost ==> s.response == Error(405, "Method not allowed")
    ensures httpMethod == MethodPost && videoName == "" ==> s.response == Error(400, "Missing 'video' parameter")
    ensures httpMethod == MethodPost && videoName != "" && stat == NotFound ==> s.response == Error(404, "Video not found")
    ensures s.record.Some? <==> Accepted(httpMethod, videoName, stat) && !Blocks(m, videoName)
    ensures Accepted(httpMethod, videoName, stat) && videoName in m && m[videoName].status == Completed ==>
      s.response == Json(map["message" := "Video already transcoded",
                              "transcode_dir" := m[videoName].transcodeDir,
                              "stream_url" := StreamUrl(m[videoName].transcodeDir)])
    ensures Accepted(httpMethod, videoName, stat) && videoName in m && m[videoName].status == Processing ==>
      s.response == Json(map["message" := "Video is currently being transcoded", "status" := Processing])
    ensures s.record.Some? ==>
      && s.record.value == NewRecord(videoName)
      && s.response == Json(map["message" := "Transcoding started",
                                 "transcode_dir" := Stem(videoName),
                                 "status" := Processing])
  {
    if httpMethod != MethodPost then Submission(Error(405, "Method not allowed"), None)
    else if videoName == "" then Submission(Error(400, "Missing 'video' parameter"), None)
    else if stat == NotFound then Submission(Error(404, "Video not found"), None)
    else if videoName in m && m[videoName].status == Completed then
      var dir := m[videoName].transcodeDir;
      Submission(Json(map["message" := "Video already transcoded",
                          "transcode_dir" := dir,
                          "stream_url" := "/hls/" + dir + "/master.m3u8"]), None)
    else if videoName in m && m[videoName].status == Processing then
      Submission(Json(map["message" := "Video is currently being transcoded", "status" := "processing"]), None)
    else
      var dir := TrimSuffix(videoName, Ext(videoName));
      Submission(Json(map["message" := "Transcoding started", "transcode_dir" := dir, "status" := "processing"]),
                 Some(VideoMapping(videoName, dir, "processing")))
  }

  /** Re-submitting a video never starts a job while its record is processing. */
  lemma NoSecondJobWhileProcessing(m: Mappings, httpMethod: string, videoName: string, stat: StatResult)
    requires Decide(m, httpMethod, videoName, stat).record.Some?
    ensures videoName !in m || m[videoName].status != Processing
  {
  }

  const StatusPrefix: string := "/api/status/"

  /** handleStatus: the record of the video named by the rest of the URL path. */
  function StatusLookup(m: Mappings, urlPath: string): (r: Response)
    ensures var name := TrimPrefix(urlPath, StatusPrefix);
      && (name == "" ==> r == Error(400, "Missing video name"))
      && (name != "" && name !in m ==> r == Error(404, "Video not found"))
      && (name != "" && name in m ==>
            && r.Json?
            && r.body.Keys <= {"video", "transcode_dir", "status", "stream_url"}
            && "video" in r.body && r.body["video"] == m[name].originalName
            && "transcode_dir" in r.body && r.body["transcode_dir"] == m[name].transcodeDir
            && "status" in r.body && r.body["status"] == m[name].status
            && ("stream_url" in r.body <==> m[name].status == Completed)
            && ("stream_url" in r.body ==> r.body["stream_url"] == StreamUrl(m[name].transcodeDir)))
  {
    var name := TrimPrefix(urlPath, StatusPrefix);
    if name == "" then Error(400, "Missing video name")
    else if name !in m then Error(404, "Video not found")
    else
      var rec := m[name];
      var response := map["video" := rec.originalName, "transcode_dir" := rec.transcodeDir, "status" := rec.status];
      if rec.status == "completed" then
        Json(response["stream_url" := "/hls/" + rec.transcodeDir + "/master.m3u8"])
      else
        Json(response)
  }

  /**
   * After the runner for a video finishes, its status reads the outcome,
   * and a successful one offers the stream of the record's directory.
   */
  lemma StatusAfterRunner(m: Mappings, videoName: string, encoderOk: bool)
    requires videoName in m && videoName != ""
    ensures var r := StatusLookup(Finished(m, videoName, encoderOk), StatusPrefix + videoName);
      && r.Json?
      && r.body["status"] == (if encoderOk then Completed else Failed)
      && r.body["video"] == m[videoName].originalName
      && r.body["transcode_dir"] == m[videoName].transcodeDir
      && ("stream_url" in r.body <==> encoderOk)
      && (encoderOk ==> r.body["stream_url"] == StreamUrl(m[videoName].transcodeDir))
  {
    assert TrimPrefix(StatusPrefix + videoName, StatusPrefix) == videoName by {
      assert (StatusPrefix + videoName)[..|StatusPrefix|] == StatusPrefix;
    }
  }

  /**
   * When a running job finishes, the status of its video reads the outcome,
   * and a successful one offers the stream of the job's own output
   * directory.
   */
  lemma RunnerPublishesJobDir(m: Mappings, running: seq<Job>, i: nat, encoderOk: bool)
    requires JobsConsistent(m, running) && i < |running|
    ensures var job := running[i];
      var r := StatusLookup(Finished(m, job.videoName, encoderOk), StatusPrefix + job.videoName);
      && r.Json?
      && r.body["status"] == (if encoderOk then Completed else Failed)
      && r.body["transcode_dir"] == job.transcodeDir
      && ("stream_url" in r.body <==> encoderOk)
      && (encoderOk ==> r.body["stream_url"] == StreamUrl(job.transcodeDir))
  {
    StatusAfterRunner(m, running[i].videoName, encoderOk);
  }

  /** A directory entry of the videos folder, as os.ReadDir lists it. */
  datatype DirEntry = DirEntry(name: string, isDir: bool)

  /** What os.ReadDir returned. */
  datatype DirRead = ReadFailed | Read(entries: seq<DirEntry>)

  /**
   * One listed video.  Empty strings stand for the fields the JSON encoding
   * omits.
   */
  datatype VideoInfo = VideoInfo(name: string, transcoded: bool, status: string, streamUrl: string, transcodeDir: string)

  /** handleGetVideos's answer. */
  datatype ListResponse = ListError(code: int, message: string) | Listed(videos: seq<VideoInfo>)

  const VideoExtensions: set<string> := {".mp4", ".mkv", ".avi", ".mov", ".webm"}

  /** The text ends in one of the video extensions. */
  predicate EndsInVideoExtension(s: string) {
    || HasSuffix(s, ".mp4")
    || HasSuffix(s, ".mkv")
    || HasSuffix(s, ".avi")
    || HasSuffix(s, ".mov")
    || HasSuffix(s, ".webm")
  }

  /** A file (not a directory) whose extension, lower-cased, names a video format. */
  predicate IsVideoEntry(e: DirEntry) {
    !e.isDir && ToLower(Ext(e.name)) in VideoExtensions
  }

  /** That is, a file whose lower-cased name ends in a video extension. */
  lemma IsVideoEntryByName(e: DirEntry)
    ensures IsVideoEntry(e) <==> !e.isDir && EndsInVideoExtension(ToLower(e.name))
  {
    LowerExtIsVideo(e.name);
  }

  /** The lowered extension is a video one iff the lowered name ends in one. */
  lemma LowerExtIsVideo(name: string)
    ensures ToLower(Ext(name)) in VideoExtensions <==> EndsInVideoExtension(ToLower(name))
  {
    if ToLower(Ext(name)) in VideoExtensions {
      LowerExtIsSuffix(name);
      VideoSuffixEnds(ToLower(name), ToLower(Ext(name)));
    }
    if EndsInVideoExtension(ToLower(name)) {
      EndingIsVideoExt(name);
    }
  }

  /** A suffix that is a video extension makes the text end in one. */
  lemma VideoSuffixEnds(s: string, x: string)
    requires HasSuffix(s, x) && x in VideoExtensions
    ensures EndsInVideoExtension(s)
  {
  }

  /** The video extension a text ends in; like every extension, it has one '.', in front. */
  lemma VideoEnding(s: string) returns (v: string)
    requires EndsInVideoExtension(s)
    ensures v in VideoExtensions && HasSuffix(s, v)
    ensures |v| > 0 && v[0] == '.'
    ensures forall k :: 0 < k < |v| ==> v[k] != '.' && v[k] != Separator
  {
    if HasSuffix(s, ".mp4") {
      v := ".mp4";
    } else if HasSuffix(s, ".mkv") {
      v := ".mkv";
    } else if HasSuffix(s, ".avi") {
      v := ".avi";
    } else if HasSuffix(s, ".mov") {
      v := ".mov";
    } else {
      v := ".webm";
    }
  }

  /** A lowered name ending in a video extension has that as its lowered extension. */
  lemma EndingIsVideoExt(name: string)
    requires EndsInVideoExtension(ToLower(name))
    ensures ToLower(Ext(name)) in VideoExtensions
  {
    var v := VideoEnding(ToLower(name));
    LowerSuffixIsExt(name, v);
  }

  /** Whether a file is listed does not depend on the case of its name. */
  lemma VideoEntryIgnoresCase(e: DirEntry)
    ensures IsVideoEntry(e) <==> IsVideoEntry(e.(name := ToLower(e.name)))
  {
    IsVideoEntryByName(e);
    IsVideoEntryByName(e.(name := ToLower(e.name)));
    ToLowerIdempotent(e.name);
  }

  /** The listing's annotation of one video file with its registry record. */
  function Info(name: string, m: Mappings): (v: VideoInfo)
    ensures v.name == name
    ensures v.transcoded <==> name in m && m[name].status == Completed
    ensures name !in m ==> v.status == "" && v.streamUrl == "" && v.transcodeDir == ""
    ensures name in m ==> v.status == m[name].status && v.transcodeDir == m[name].transcodeDir
    ensures v.streamUrl != "" <==> v.transcoded
    ensures v.transcoded ==> v.streamUrl == StreamUrl(m[name].transcodeDir)
  {
    if name in m then
      var rec := m[name];
      var url := if rec.status == "completed" then "/hls/" + rec.transcodeDir + "/master.m3u8" else "";
      VideoInfo(name, rec.status == "completed", rec.status, url, rec.transcodeDir)
    else
      VideoInfo(name, false, "", "", "")
  }

  /** The listing of a prefix of the directory, extended one entry at a time. */
  function Listing(entries: seq<DirEntry>, m: Mappings): (vs: seq<VideoInfo>)
    ensures |vs| <= |entries|
    ensures forall v :: v in vs ==> exists e :: e in entries && IsVideoEntry(e) && v == Info(e.name, m)
    decreases |entries|
  {
    if entries == [] then []
    else
      var init, last := entries[..|entries| - 1], entries[|entries| - 1];
      assert forall e :: e in init ==> e in entries;
      Listing(init, m) + (if IsVideoEntry(last) then [Info(last.name, m)] else [])
  }

  /** The positions, in order, of the elements of s that keep accepts. */
  function Positions<T>(s: seq<T>, keep: T -> bool): (ix: seq<nat>)
    decreases |s|
  {
    if s == [] then []
    else
      var n := |s| - 1;
      Positions(s[..n], keep) + (if keep(s[n]) then [n] else [])
  }

  /**
   * The positions are increasing, lie in s, hold accepted elements, and
   * include every position whose element is accepted.
   */
  lemma {:induction false} PositionsExact<T>(s: seq<T>, keep: T -> bool)
    ensures forall k :: 0 <= k < |Positions(s, keep)| ==>
      Positions(s, keep)[k] < |s| && keep(s[Positions(s, keep)[k]])
    ensures forall k, l :: 0 <= k < l < |Positions(s, keep)| ==>
      Positions(s, keep)[k] < Positions(s, keep)[l]
    ensures forall i :: 0 <= i < |s| && keep(s[i]) ==> i in Positions(s, keep)
    decreases |s|
  {
    if s != [] {
      var n := |s| - 1;
      var init := s[..n];
      PositionsExact(init, keep);
      var ix, ix0 := Positions(s, keep), Positions(init, keep);
      assert ix == ix0 + (if keep(s[n]) then [n] else []);
      forall k | 0 <= k < |ix| ensures ix[k] < |s| && keep(s[ix[k]]) {
        if k < |ix0| {
          assert ix[k] == ix0[k] && init[ix0[k]] == s[ix0[k]];
        }
      }
      forall k, l | 0 <= k < l < |ix| ensures ix[k] < ix[l] {
        if l < |ix0| { assert ix[k] == ix0[k] && ix[l] == ix0[l]; }
        else { assert ix[k] == ix0[k] && ix0[k] < n; }
      }
      forall i | 0 <= i < |s| && keep(s[i]) ensures i in ix {
        if i < n {
          assert init[i] == s[i];
          assert i in ix0;
        } else {
          assert ix[|ix| - 1] == n;
        }
      }
    }
  }

  /**
   * The listing holds exactly the video files of the directory, in the
   * directory's order, each annotated from the registry: the k-th listed
   * video is the entry at the k-th video position.
   */
  lemma {:induction false} ListingFollowsPositions(entries: seq<DirEntry>, m: Mappings)
    ensures |Listing(entries, m)| == |Positions(entries, IsVideoEntry)|
    ensures forall k :: 0 <= k < |Listing(entries, m)| ==>
      var i := Positions(entries, IsVideoEntry)[k];
      i < |entries| && Listing(entries, m)[k] == Info(entries[i].name, m)
    decreases |entries|
  {
    PositionsExact(entries, IsVideoEntry);
    if entries != [] {
      var n := |entries| - 1;
      ListingFollowsPositions(entries[..n], m);
      var ix, ix0 := Positions(entries, IsVideoEntry), Positions(entries[..n], IsVideoEntry);
      var vs, vs0 := Listing(entries, m), Listing(entries[..n], m);
      forall k | 0 <= k < |vs0| ensures vs[k] == Info(entries[ix[k]].name, m) {
        assert vs[k] == vs0[k] && ix[k] == ix0[k];
        assert entries[..n][ix0[k]] == entries[ix0[k]];
      }
    }
  }

  /**
   * Which files are listed, and in which order, depends on the directory
   * alone, whatever the registry holds.
   */
  lemma ListingNamesIgnoreRegistry(entries: seq<DirEntry>, m1: Mappings, m2: Mappings)
    ensures |Listing(entries, m1)| == |Listing(entries, m2)|
    ensures forall k :: 0 <= k < |Listing(entries, m1)| ==>
      Listing(entries, m1)[k].name == Listing(entries, m2)[k].name
  {
    ListingFollowsPositions(entries, m1);
    ListingFollowsPositions(entries, m2);
  }

  /** What corsHandler did with a request. */
  datatype CorsOutcome =
    | NoContent(headers: map<string, string>)   // answered 204 itself
    | Forward(headers: map<string, string>)     // passed on to the file server

  /** The Content-Type corsHandler fixes for a stream file, by its extension. */
  function ContentType(urlPath: string): (t: Option<string>)
    ensures t.Some? <==> Ext(urlPath) in {".m3u8", ".ts"}
    ensures Ext(urlPath) == ".m3u8" ==> t == Some("application/vnd.apple.mpegurl")
    ensures Ext(urlPath) == ".ts" ==> t == Some("video/mp2t")
  {
    match Ext(urlPath)
    case ".m3u8" => Some("application/vnd.apple.mpegurl")
    case ".ts" => Some("video/mp2t")
    case _ => None
  }

  const CorsHeaders: map<string, string> := map[
    "Access-Control-Allow-Origin" := "*",
    "Access-Control-Allow-Methods" := "GET,HEAD,OPTIONS,POST",
    "Access-Control-Allow-Headers" := "Range, Accept, Origin, X-Requested-With, Content-Type",
    "Access-Control-Expose-Headers" := "Content-Length, Content-Range"]

  /** corsHandler: the headers it sets, and whether it answers the request itself. */
  function Cors(httpMethod: string, urlPath: string): (c: CorsOutcome)
    ensures c.NoContent? <==> httpMethod == MethodOptions
    ensures c.headers.Keys == CorsHeaders.Keys + (if ContentType(urlPath).Some? then {"Content-Type"} else {})
    ensures forall h :: h in CorsHeaders ==> c.headers[h] == CorsHeaders[h]
    ensures Ext(urlPath) == ".m3u8" ==> c.headers["Content-Type"] == "application/vnd.apple.mpegurl"
    ensures Ext(urlPath) == ".ts" ==> c.headers["Content-Type"] == "video/mp2t"
  {
    var headers := match ContentType(urlPath)
      case Some(t) => CorsHeaders["Content-Type" := t]
      case None => CorsHeaders;
    if httpMethod == MethodOptions then NoContent(headers) else Forward(headers)
  }

  /** A stream URL ends in the extension of an HLS playlist. */
  lemma {:induction false} StreamUrlExt(dir: string)
    ensures Ext(StreamUrl(dir)) == ".m3u8"
  {
    var u := StreamUrl(dir);
    assert u[|u| - 5..] == ".m3u8";
    ExtUnique(u, ".m3u8");
  }

  /**
   * A stream URL names the master playlist of its directory below the /hls/
   * root, and is served as an HLS playlist.
   */
  lemma StreamUrlIsMasterPlaylist(dir: string, httpMethod: string)
    ensures TrimPrefix(StreamUrl(dir), "/hls/") == dir + "/master.m3u8"
    ensures var headers := Cors(httpMethod, StreamUrl(dir)).headers;
      "Content-Type" in headers && headers["Content-Type"] == "application/vnd.apple.mpegurl"
  {
    var u := StreamUrl(dir);
    assert u == "/hls/" + (dir + "/master.m3u8");
    StreamUrlExt(dir);
  }
}
