# Transcode job registry — a Dafny model

This project models the core of a small Go HTTP server (`main.go`). The server
starts adaptive-bitrate HLS transcodes of local video files and tracks each job
in an in-memory registry. The registry maps a source video's file name to a
`VideoMapping` record `{OriginalName, TranscodeDir, Status}`. A video's status
moves from no record, to `processing`, to `completed` or `failed`.

The model has five modules:

- `GoStd` (gostd.dfy): the Go library functions the server's decisions depend on.
  These are `filepath.Ext`, `strings.TrimPrefix`, `strings.TrimSuffix` and
  `strings.ToLower`. `Ext` is proved equal to an independent characterisation
  (`IsExtOf`): the suffix that starts at the last `.` of the final path element.
- `Registry` (registry.dfy): the record type and the output directory (`Stem`:
  the name with its extension removed). It also has the stream URL
  `/hls/<dir>/master.m3u8` and the runner's completion step (`Finished`). Two
  invariants are kept by submission and completion. `JobsConsistent`: every
  running job's video has a `processing` record whose directory is the job's
  output directory, and no two running jobs share a video. `WellFormed`: every record is keyed by its own name and points at
  that name's stem.
- `Handlers` (handlers.dfy): the handler decisions as functions of the registry
  and of what the filesystem reported. They are the submission policy of
  `handleTranscode`, the lookup of `handleStatus`, the filtering and annotation
  of `handleGetVideos`, and the headers of `corsHandler`.
- `Server` (server.dfy): the class `TranscodeState`, whose methods change the
  registry in place. Its fields are the registry, the last saved snapshot and
  the background jobs still running. `Load` reads the state file at startup,
  `HandleTranscode` accepts a submission, and `Transcode` is a runner
  finishing. `HandleGetVideos` builds the listing with a loop, as the source
  does. Every method except `Load` keeps `JobsConsistent`. `Load` keeps it
  when no job is running, and it runs only at startup.
- `Wrappers` (wrappers.dfy): an `Option` type.

Inputs replace the outside world:

- the HTTP method and the request's video name or URL path are parameters;
- `os.Stat` becomes a `StatResult` (`Found`, `NotFound` or `StatFailed`);
- `os.ReadDir` becomes a `DirRead` holding a sequence of `DirEntry`;
- the state file becomes a `StateFile`;
- the encoder's exit becomes `encoderOk: bool`.

Details of the code that the model keeps:

- A new job starts for any status other than `completed` or `processing`,
  including a status string other than the three the server writes. A record
  loaded from the state file can hold any string.
- Only an `os.Stat` error that means "does not exist" rejects a submission
  with 404. Any other `os.Stat` error (for example, permission denied) lets the
  submission through.
- The status lookup checks for an empty name before it looks at the registry.
  The submission handler checks the HTTP method (405) before the parameter.
- Loading merges the decoded records into the existing map, as
  `json.Unmarshal` does into a non-nil Go map. At startup that map is empty.

## Model

| member | source | states |
|---|---|---|
| GoStd.Ext | main.go:199 | `filepath.Ext` returns a suffix of the path that is empty or starts with `.` |
| GoStd.ExtIsExtOf | main.go:199 | the extension is empty exactly when the final path element has no `.`; otherwise it starts at that element's last `.` and holds no other `.` or `/` |
| GoStd.ExtUnique | main.go:199 | any suffix meeting that characterisation is the one `Ext` returns, so `Ext` is determined by it |
| GoStd.TrimSuffix | main.go:199 | the trimmed string plus the suffix is the input when the suffix is present; otherwise the input is unchanged |
| GoStd.TrimPrefix | main.go:227 | the prefix plus the trimmed string is the input when the prefix is present; otherwise the input is unchanged |
| GoStd.ToLower | main.go:125 | `strings.ToLower` keeps the length; with `ToLowerAt`, each rune is lowered in place |
| GoStd.ToLowerAt | main.go:125 | every rune of the lowered extension is the lowered rune at the same position |
| GoStd.ToLowerIdempotent | main.go:125 | lowering an already lowered string changes nothing |
| GoStd.ToLowerDrop | main.go:125 | lowering a suffix gives the same suffix of the lowered string |
| GoStd.ToLowerRuneKeepsPunctuation | main.go:125 | lowering turns a rune into `.` or `/` only when it already is one |
| GoStd.LowerExtIsSuffix | main.go:125 | the lowered extension is a suffix of the lowered name |
| GoStd.LowerSuffixIsExt | main.go:125 | a suffix of the lowered name that is a `.` followed by no `.` and no `/` is the lowered extension |
| GoStd.LowerExtMatches | main.go:125-126 | for such a lower-case extension, the lowered extension equals it exactly when the lowered name ends in it |
| Registry.Stem | main.go:199 | the output directory followed by the video's extension is the video name |
| Registry.StemExtDetermineName | main.go:199 | two names with the same output directory and the same extension are the same name |
| Registry.StreamUrl | main.go:185 | the stream URL is `/hls/`, then the directory, then `/master.m3u8`, and the directory can be read back from between them |
| Registry.StreamUrlInjective | main.go:185 | different output directories give different stream URLs |
| Registry.NewRecord | main.go:205-209 | a submission's new record carries the video's own name, status `processing`, and a directory that is the name without its extension |
| Registry.Admitted | main.go:204-209 | inserting the new record adds that key, sets it to the new record, and leaves every other key's record unchanged |
| Registry.Finished | main.go:284-290 | completion sets the key's status to `completed` on encoder success and `failed` otherwise; the name, the directory, the key set and all other records stay unchanged |
| Registry.AdmittedKeepsJobsConsistent | main.go:190-214 | starting a job for a named video whose record is not `processing` keeps one running job per video, each with a `processing` record that names the job's output directory |
| Registry.FinishedKeepsJobsConsistent | main.go:281-290 | a running job's record exists when it finishes and names the job's output directory, and finishing it keeps the remaining jobs consistent |
| Registry.TransitionsKeepWellFormed | main.go:199-209 | submission and completion keep every record keyed by its own name and pointing at that name's stem |
| Handlers.Decide | main.go:158-221 | non-POST gives 405, an empty name gives 400, and a missing file gives 404, all with no record and no job; a `completed` record returns its directory and stream URL with no job; a `processing` record reports busy with no job; any other case inserts `NewRecord` and starts a job, exactly when the request is accepted and the record does not block |
| Handlers.NoSecondJobWhileProcessing | main.go:190-196 | a submission that starts a job never does so while the video's record is `processing` |
| Handlers.StatusLookup | main.go:227-252 | an empty name gives 400 and an unknown name gives 404; otherwise the answer copies the record's video, directory and status, and has `stream_url`, set to the stream URL, exactly when the status is `completed` |
| Handlers.StatusAfterRunner | main.go:242-250 | after a runner finishes, the video's status reads `completed` or `failed` by the encoder's outcome, keeps the record's name and directory, and offers the stream of that directory exactly on success |
| Handlers.RunnerPublishesJobDir | main.go:281-290 | when a running job finishes, its video's status reads the outcome and names the job's own output directory, and on success the stream URL is that directory's master playlist |
| Handlers.Info | main.go:130-142 | a listed video is `transcoded` exactly when its record is `completed`; with no record, its status, URL and directory are empty; with a record, its status and directory are the record's; it has a URL exactly when transcoded |
| Handlers.IsVideoEntryByName | main.go:119-128 | an entry is listed exactly when it is not a directory and its lower-cased name ends in `.mp4`, `.mkv`, `.avi`, `.mov` or `.webm` |
| Handlers.LowerExtIsVideo | main.go:125-126 | the lower-cased extension is a video extension exactly when the lower-cased name ends in one |
| Handlers.VideoEntryIgnoresCase | main.go:125 | whether an entry is listed does not depend on the case of its name |
| Handlers.Listing | main.go:118-147 | the listing is no longer than the directory, and every listed video is the annotation of some video entry of the directory |
| Handlers.PositionsExact | main.go:118-128 | the kept positions of the directory are increasing and in range, hold kept entries, and include every kept entry |
| Handlers.ListingFollowsPositions | main.go:118-147 | the listing has one element per non-directory entry with a lower-cased video extension, in directory order, each annotated from the registry |
| Handlers.ListingNamesIgnoreRegistry | main.go:118-147 | which files are listed, and their order, does not depend on the registry |
| Handlers.ContentType | main.go:75-80 | `.m3u8` gives the HLS playlist type, `.ts` gives `video/mp2t`, and any other extension gives none |
| Handlers.Cors | main.go:68-87 | the four CORS headers are always set; Content-Type is set only for `.m3u8` and `.ts`; OPTIONS is answered with 204 without forwarding, and every other method is forwarded |
| Handlers.StreamUrlExt | main.go:75-77 | every stream URL has extension `.m3u8` |
| Handlers.StreamUrlIsMasterPlaylist | main.go:47 | below the `/hls/` prefix a stream URL names the master playlist of its directory, and it is served with the HLS playlist type |
| Server.TranscodeState.constructor | main.go:31-34 | the server starts with an empty registry, no saved snapshot and no running jobs |
| Server.TranscodeState.Load | main.go:295-308 | a missing state file is not an error and leaves the registry as it was; decoded records are merged in; a read or syntax error is reported and changes nothing |
| Server.TranscodeState.HandleTranscode | main.go:154-221 | answers by `Decide`; when a job starts, the video's record becomes the new `processing` record, the snapshot is the new registry, and exactly one job is added; otherwise the registry, snapshot and jobs are unchanged; keeps at most one running job per video |
| Server.TranscodeState.Transcode | main.go:281-292 | the finished job's record takes the encoder's outcome as described by `Finished` and keeps the job's output directory; its status then reads the outcome, with the stream URL of the job's directory exactly on success; the snapshot is the new registry, exactly that job leaves the running set, and the job invariant is kept |
| Server.TranscodeState.HandleGetVideos | main.go:90-152 | non-GET gives 405 and an unreadable directory gives 500; otherwise the loop's result is the listing of the entries against the registry, which it does not modify |
| Server.ExampleStem | main.go:199 | `a.mp4` has extension `.mp4` and output directory `a` |
| Server.ExampleCompletedStatus | main.go:242-250 | the status of a completed `a.mp4` is the full answer with stream URL `/hls/a/master.m3u8` |
| Server.SubmitRetryComplete | main.go:176-221 | from a fresh server, submitting `a.mp4` starts a job; submitting it again reports busy; after the encoder succeeds, its status is `completed` with stream URL `/hls/a/master.m3u8` |

## Left out

- The HTTP server, routing and static serving of transcoded files (`http.FileServer`, `http.StripPrefix`, main.go:29-66) are not modelled. Only the `/hls/` prefix of the stream URL is stated, in `StreamUrlIsMasterPlaylist`.
- The ffmpeg command line and its execution (main.go:258-279) are not modelled. The encoder's result is the input `encoderOk`, and its output text (logged only) is not modelled.
- Locking and the background goroutine are not modelled. Each operation is one atomic step and a started job is an entry of `running`. The source's check (main.go:177-179) and insert (main.go:204-211) are separate critical sections, so two concurrent submissions can both start a job. The model does not reproduce that race.
- Reads outside the lock are not modelled. The registry holds record values, not Go pointers. `handleStatus` (main.go:233-249) and `handleTranscode` (main.go:177-190) keep the record's pointer after releasing the read lock. They read `Status` and `TranscodeDir` afterwards, while the runner writes `Status` through the same pointer (main.go:286, 289). So a status answer can report `processing` together with a `stream_url`. A submission can also see `processing` at main.go:181 and `completed` at main.go:190, fall through both checks, and transcode a finished video again. The model's atomic steps do not reproduce this.
- Server.TranscodeState.Transcode: requires that the job is running. The source dereferences the record without a check and panics if it is absent, which cannot happen under `JobsConsistent`.
- JSON encoding is not modelled. Answers are string maps and `VideoInfo` values, and an empty string stands for a field that `omitempty` drops. An empty listing is a nil slice in the source and is encoded as JSON `null`; the model returns the empty sequence.
- The `http.Error` text framing is not modelled: plain text with a trailing newline.
- The handlers' own `Access-Control-Allow-Origin` and `application/json` headers (main.go:91-92, 155-156, 224-225) are not modelled.
- Server.TranscodeState.Load: `Decoded` stands for a successful decode. JSON type errors that leave the map partly filled, `null` record values, and a document that is literally `null` (which makes the map nil) are not modelled.
- Save failures are not modelled (`json.Marshal`, `os.WriteFile`; errors ignored at main.go:210 and 292). The snapshot is assumed to be written, and a partly written file is not modelled.
- `os.MkdirAll` (main.go:42-43, 201) is not modelled; its errors are ignored in the source.
- Path cleaning by `filepath.Join` of the source and output paths (main.go:170, 200) is not modelled. A `Job` records the video name and its output directory.
- GoStd.ToLowerAt: `ToLower` maps only the runes whose lower case is an ASCII letter ('A'..'Z', U+0130 and U+212A). Every other rune is kept, which cannot change whether the result equals one of the ASCII video extensions.
- Strings are sequences of Unicode scalar values. Invalid UTF-8 in file names is not modelled.
- Logging (main.go:38, 56-61, 144, 149, 256, 285, 288) is not modelled.
