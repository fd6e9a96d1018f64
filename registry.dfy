/**
 * The transcode job registry of main.go: a map from source-video file name
 * to a VideoMapping record, the derivations of a record's output directory
 * and stream URL, the runner's completion step, and the invariants the
 * submission policy keeps.
 */
module Registry {
  import opened GoStd

  const Processing: string := "processing"
  const Completed: string := "completed"
  const Failed: string := "failed"

  /**
   * One record (VideoMapping).  The status is any string: the handlers write
   * only the three above, but a record loaded from the state file may hold
   * anything, and the handlers treat every other value alike.
   */
  datatype VideoMapping = VideoMapping(originalName: string, transcodeDir: string, status: string)

  /** The registry, keyed by the original video name. */
  type Mappings = map<string, VideoMapping>

  /** A background transcode started for one video, writing into transcodeDir. */
  datatype Job = Job(videoName: string, transcodeDir: string)

  /** The output directory of a video: its name without its extension. */
  function Stem(videoName: string): (dir: string)
    ensures dir + Ext(videoName) == videoName
  {
    TrimSuffix(videoName, Ext(videoName))
  }

  /** The name and its extension are recovered from the stem and the extension. */
  lemma StemExtDetermineName(a: string, b: string)
    ensures Stem(a) == Stem(b) && Ext(a) == Ext(b) ==> a == b
  {
  }

  /** The location under which the server publishes a transcoded stream. */
  function StreamUrl(dir: string): (url: string)
    ensures HasPrefix(url, "/hls/") && HasSuffix(url, "/master.m3u8")
    ensures |url| == |dir| + 17 && url[5..|url| - 12] == dir
  {
    "/hls/" + dir + "/master.m3u8"
  }

  /** Different output directories get different stream URLs. */
  lemma StreamUrlInjective(d1: string, d2: string)
    requires StreamUrl(d1) == StreamUrl(d2)
    ensures d1 == d2
  {
  }

  /** The record a submission inserts for a video it starts transcoding. */
  function NewRecord(videoName: string): (rec: VideoMapping)
    ensures rec.originalName == videoName && rec.status == Processing
    ensures rec.transcodeDir + Ext(videoName) == videoName
  {
    VideoMapping(videoName, Stem(videoName), Processing)
  }

  /**
   * The runner's completion: the status of videoName's record becomes
   * "completed" when the encoder succeeded and "failed" otherwise.
   */
  function Finished(m: Mappings, videoName: string, encoderOk: bool): (m': Mappings)
    requires videoName in m
    ensures m'.Keys == m.Keys
    ensures m'[videoName].status == (if encoderOk then Completed else Failed)
    ensures m'[videoName].originalName == m[videoName].originalName
    ensures m'[videoName].transcodeDir == m[videoName].transcodeDir
    ensures forall k :: k in m && k != videoName ==> m'[k] == m[k]
  {
    m[videoName := m[videoName].(status := if encoderOk then Completed else Failed)]
  }

  /**
   * Every background job belongs to a named video whose record is
   * "processing" and writes into that record's directory, and no two
   * background jobs belong to the same video: at most one runner will ever
   * write a given record.
   */
  ghost predicate JobsConsistent(m: Mappings, running: seq<Job>) {
    && (forall i :: 0 <= i < |running| ==>
          && running[i].videoName != ""
          && running[i].videoName in m
          && m[running[i].videoName].status == Processing
          && m[running[i].videoName].transcodeDir == running[i].transcodeDir)
    && (forall i, j :: 0 <= i < j < |running| ==> running[i].videoName != running[j].videoName)
  }

  /** The registry after a submission that starts a job for videoName. */
  function Admitted(m: Mappings, videoName: string): (m': Mappings)
    ensures m'.Keys == m.Keys + {videoName}
    ensures m'[videoName] == NewRecord(videoName)
    ensures forall k :: k in m && k != videoName ==> m'[k] == m[k]
  {
    m[videoName := NewRecord(videoName)]
  }

  /**
   * Starting a job for a video whose record is not "processing" keeps the
   * jobs consistent.
   */
  lemma AdmittedKeepsJobsConsistent(m: Mappings, running: seq<Job>, videoName: string)
    requires JobsConsistent(m, running)
    requires videoName != ""
    requires videoName !in m || m[videoName].status != Processing
    ensures JobsConsistent(Admitted(m, videoName), running + [Job(videoName, Stem(videoName))])
  {
  }

  /** Finishing one of the running jobs, and removing it, keeps the jobs consistent. */
  lemma FinishedKeepsJobsConsistent(m: Mappings, running: seq<Job>, i: nat, encoderOk: bool)
    requires JobsConsistent(m, running)
    requires i < |running|
    ensures running[i].videoName in m
    ensures m[running[i].videoName].transcodeDir == running[i].transcodeDir
    ensures JobsConsistent(Finished(m, running[i].videoName, encoderOk), running[..i] + running[i + 1..])
  {
  }

  /**
   * A registry is well formed when every record is keyed by its own original
   * name and writes into that name's stem.
   */
  ghost predicate WellFormed(m: Mappings) {
    forall k :: k in m ==> m[k].originalName == k && m[k].transcodeDir == Stem(k)
  }

  /** Submission and completion keep the registry well formed. */
  lemma TransitionsKeepWellFormed(m: Mappings, videoName: string, encoderOk: bool)
    requires WellFormed(m)
    ensures WellFormed(Admitted(m, videoName))
    ensures videoName in m ==> WellFormed(Finished(m, videoName, encoderOk))
  {
    var a := Admitted(m, videoName);
    forall k | k in a ensures a[k].originalName == k && a[k].transcodeDir == Stem(k) {
      if k != videoName { assert a[k] == m[k]; }
    }
    if videoName in m {
      var f := Finished(m, videoName, encoderOk);
      forall k | k in f ensures f[k].originalName == k && f[k].transcodeDir == Stem(k) {
        if k != videoName { assert f[k] == m[k]; }
      }
    }
  }
}
