# Camera motion recorder/player — a verified Dafny model

This project models the camera motion recorder/player of the frame-rate measurement panel
(`UIBuilder` in `isaacsim.framerate.measurement/FPS_Measurement_with_Camera_python/ui_builder.py`). The recorder samples the world pose of the
`/OmniverseKit_Persp` camera at most 60 times a second into a log. It stops by itself after an
auto-stop sample count derived from a duration, or when asked. The player replays the log on a
playback camera `/World/Recorded_Cam...`. It picks the two samples around the elapsed time,
blends them, and counts the frames it actually produced. When a playback run ends, the realised
frame rate goes into a history of at most five entries. Save and load turn the log into records
`{"p": [x, y, z], "r": [w, i0, i1, i2]}` and back.

Layout, one module per file:

- `wrappers.dfy` (Wrappers): Option and Result.
- `poses.dfy` (Poses): vectors, quaternions (real part first), poses, and the position lerp.
- `playback.dfy` (Playback): the 60 Hz rate and sample interval; Python's `int()` on floats
  (`Trunc`); Python list indexing, which counts negative indices from the end (`PyIndex`); and
  the playback step that picks the bracketing samples or ends playback.
- `fps_history.dfy` (FpsHistory): the bounded history of realised rates.
- `codec.dfy` (Codec): the record mapping of save and load, over parsed JSON values.
- `paths.dfy` (Paths): the "Recorded_Cam" prefix filter of the cleanup, the last path segment
  used for camera names, and the picked-file path join.
- `recorder_spec.dfy` (RecorderSpec): the whole recorder state as a value. It has one function per
  handler (start, stop, play, tick, load, cleanup, teardown) and the lemmas about single calls and
  about runs of ticks.
- `recorder.dfy` (Recorder): class `CameraRecorder`, whose fields are those of `UIBuilder`. Each
  method updates them in place and is proved to follow the matching RecorderSpec function exactly.
  `Valid()` is the invariant "never recording and playing at once, at most five history entries".

Inputs the host supplies are parameters. The clock is `now: real`, in seconds. The scene is a
`Scene` value: whether a stage is open, whether a viewport is active, the names of the children
of `/World`, the Persp camera's pose if that prim is valid, and whether the playback camera
prim is valid. The stage's next free path for a new playback camera is `freePath`. The handlers
return the prim paths they ask the host to delete. A tick returns what it did, including the
interpolated frame.

Behaviour of the code that the model keeps:

- The auto-stop count is `int(duration * 60)`. It truncates and does not round. A positive
  duration shorter than 1/60 s therefore gives a manual recording.
- Starting a recording while playing cleans up the playback camera but records no rate sample.
  Playing again while already playing does not record one either.
- Loading clears the log before decoding records. A malformed record therefore leaves the records
  before it loaded. Loading never changes the modes. So a load during a recording can leave a log
  longer than the auto-stop count (`LoadCanOverrunThreshold`). A load during playback makes the
  player index the new log from the next tick on.
- A rate entry's running number is the history length before the append, plus one. Once five
  entries are kept, every new entry is numbered 6 (`NumberingStopsAtSix`).
- If the wall clock steps back behind the playback start, the elapsed time is negative. For a
  step back of less than one sample interval, `int()` truncates to index 0, and the player blends
  samples 0 and 1 with a negative weight. It extrapolates before the first sample
  (`ClockStepBackUnderOneInterval`). For a longer step back the index is negative. Python then
  reads samples from the end of the log (`ClockStepBackReadsFromEnd`), or raises IndexError,
  which leaves the state as it was. The model keeps all three behaviours.

## Model

| member | source | states |
|---|---|---|
| `Poses.Lerp` | isaacsim.framerate.measurement/FPS_Measurement_with_Camera_python/ui_builder.py:273 | the position blend gives the first sample at t = 0, the second at t = 1, and the common value when both are equal |
| `Playback.Trunc` | isaacsim.framerate.measurement/FPS_Measurement_with_Camera_python/ui_builder.py:261 | `int()` on a float truncates toward zero: below x and within 1 for x >= 0, above x and within 1 for x < 0; non-negative exactly when x > -1 |
| `Playback.FrameIndex` | isaacsim.framerate.measurement/FPS_Measurement_with_Camera_python/ui_builder.py:260-261 | `int(elapsed * 60)` truncates: for elapsed >= 0 it is the non-negative whole part, within 1 below elapsed * 60; for elapsed < 0 it is non-positive and within 1 above |
| `Playback.PyIndex` | isaacsim.framerate.measurement/FPS_Measurement_with_Camera_python/ui_builder.py:271-272 | a list read succeeds exactly for -n <= i < n; it reads position i, or i + n for a negative i, and that position is inside the list |
| `Playback.PlaybackStep` | isaacsim.framerate.measurement/FPS_Measurement_with_Camera_python/ui_builder.py:259-272 | playback finishes exactly when idx0 >= len - 1; IndexError happens exactly when idx0 < -len and playback has not finished; any read is inside the log, at idx0 and idx0 + 1 with a negative index counted from the end, with weight t = elapsed * 60 - idx0; for elapsed >= 0 a non-final step reads idx0 = int(elapsed * 60) and idx0 + 1 <= len - 1, with t in [0, 1) |
| `Playback.FrameIndexMonotone` | isaacsim.framerate.measurement/FPS_Measurement_with_Camera_python/ui_builder.py:259-261 | for a clock that does not run back, the playback index is non-negative and never decreases |
| `Playback.FinishedIffEndReached` | isaacsim.framerate.measurement/FPS_Measurement_with_Camera_python/ui_builder.py:265 | playback ends exactly when elapsed * 60 >= len - 1, so it lasts (len - 1) / 60 seconds |
| `Playback.FinishedIsFinal` | isaacsim.framerate.measurement/FPS_Measurement_with_Camera_python/ui_builder.py:265-269 | once a step finishes, every later step finishes too |
| `Playback.ShortLogFinishesAtOnce` | isaacsim.framerate.measurement/FPS_Measurement_with_Camera_python/ui_builder.py:265 | a log of fewer than two samples finishes on its first playback tick |
| `Playback.ClockStepBackUnderOneInterval` | isaacsim.framerate.measurement/FPS_Measurement_with_Camera_python/ui_builder.py:259-272 | a clock half a sample interval behind the start truncates to index 0: a three-sample log pairs samples 0 and 1 with weight -0.5, extrapolating before sample 0 |
| `Playback.ClockStepBackReadsFromEnd` | isaacsim.framerate.measurement/FPS_Measurement_with_Camera_python/ui_builder.py:259-272 | a clock 1.5 sample intervals behind the start gives index -1: a three-sample log pairs sample 2 with sample 0 at weight -0.5, extrapolating beyond the last sample away from the first |
| `FpsHistory.Push` | isaacsim.framerate.measurement/FPS_Measurement_with_Camera_python/ui_builder.py:307-308 | appending keeps the most recent min(n + 1, 5) entries of history + [entry], the oldest dropped first, with the new entry last |
| `FpsHistory.Finalize` | isaacsim.framerate.measurement/FPS_Measurement_with_Camera_python/ui_builder.py:302-308 | a run of no positive duration records nothing; otherwise the new last entry's rate times the duration is the frame count, its number is len + 1, the older entries are a suffix of the old history, the result is the old history with that entry pushed (min(len + 1, 5) entries), and the history stays within five |
| `FpsHistory.DisplayOrder` | isaacsim.framerate.measurement/FPS_Measurement_with_Camera_python/ui_builder.py:313-314 | the panel lists the history most recent first: entry k is the (len - 1 - k)-th entry |
| `FpsHistory.SixtyFpsExample` | isaacsim.framerate.measurement/FPS_Measurement_with_Camera_python/ui_builder.py:303-305 | 120 frames in 2.0 s record a rate of 60.0 |
| `FpsHistory.NumberingStopsAtSix` | isaacsim.framerate.measurement/FPS_Measurement_with_Camera_python/ui_builder.py:306-308 | with five entries kept, the next two entries are both numbered 6 |
| `Codec.EncodePose` | isaacsim.framerate.measurement/FPS_Measurement_with_Camera_python/ui_builder.py:326 | a record is an object with exactly the keys "p" and "r"; "p" decodes to the position and "r", four numbers, to the rotation |
| `Codec.DecodeVec3` | isaacsim.framerate.measurement/FPS_Measurement_with_Camera_python/ui_builder.py:363 | `Gf.Vec3d(*p)` accepts exactly an array of three numbers, and the vector read is the one that array spells |
| `Codec.DecodeQuat` | isaacsim.framerate.measurement/FPS_Measurement_with_Camera_python/ui_builder.py:363 | the rotation reads succeed exactly for an array whose first four entries are numbers; the quaternion is those four, real part first |
| `Codec.Encode` | isaacsim.framerate.measurement/FPS_Measurement_with_Camera_python/ui_builder.py:323-326 | the record loop yields exactly one record per sample, the k-th record being the k-th sample's |
| `Codec.Save` | isaacsim.framerate.measurement/FPS_Measurement_with_Camera_python/ui_builder.py:317-326 | saving fails exactly for an empty log, and otherwise yields one record per sample, in log order |
| `Codec.DecodeItem` | isaacsim.framerate.measurement/FPS_Measurement_with_Camera_python/ui_builder.py:362-363 | a record decodes exactly when it is an object with "p" and "r", p is three numbers and r starts with four numbers; the pose is read from them |
| `Codec.DecodePrefix` | isaacsim.framerate.measurement/FPS_Measurement_with_Camera_python/ui_builder.py:360-363 | the load loop keeps the longest prefix of records that all decode, and stops at the first record that does not |
| `Codec.DecodePrefixUnique` | isaacsim.framerate.measurement/FPS_Measurement_with_Camera_python/ui_builder.py:360-363 | those three properties determine the decoded prefix |
| `Codec.LoadedLog` | isaacsim.framerate.measurement/FPS_Measurement_with_Camera_python/ui_builder.py:358-363 | an array document loads its decodable prefix and completes exactly when every record decodes; any other document leaves an empty log, and completes only as an empty object or string |
| `Codec.DecodeEncodePose` | isaacsim.framerate.measurement/FPS_Measurement_with_Camera_python/ui_builder.py:324-363 | every pose survives its own record, position as (x, y, z) and rotation real part first |
| `Codec.EncodeDecodePose` | isaacsim.framerate.measurement/FPS_Measurement_with_Camera_python/ui_builder.py:326 | a decodable record with only the keys "p" and "r" and four rotation entries is exactly the record of its pose |
| `Codec.LoadSaved` | isaacsim.framerate.measurement/FPS_Measurement_with_Camera_python/ui_builder.py:323-363 | loading the records of a saved log gives that log back, and the load completes |
| `Codec.MalformedRecordLeavesPrefix` | isaacsim.framerate.measurement/FPS_Measurement_with_Camera_python/ui_builder.py:360-370 | a malformed record after good ones aborts the load with the good ones already in the log |
| `Codec.MissingRotationIsMalformed` | isaacsim.framerate.measurement/FPS_Measurement_with_Camera_python/ui_builder.py:362 | a record without "r" does not decode |
| `Paths.RecordedCamPaths` | isaacsim.framerate.measurement/FPS_Measurement_with_Camera_python/ui_builder.py:295-299 | every deleted path is "/World/" + the name of a child that starts with "Recorded_Cam", and every such child is deleted |
| `Paths.RecordedCamPathsAppend` | isaacsim.framerate.measurement/FPS_Measurement_with_Camera_python/ui_builder.py:297 | the filter splits over concatenation of the child list, so the deleted paths keep child order |
| `Paths.RecordedCamPathsOfOne` | isaacsim.framerate.measurement/FPS_Measurement_with_Camera_python/ui_builder.py:297 | a single child is deleted exactly when its name starts with "Recorded_Cam", at "/World/" + name |
| `Paths.LastSegment` | isaacsim.framerate.measurement/FPS_Measurement_with_Camera_python/ui_builder.py:387-388 | `split("/")[-1]` is the suffix after the last '/': it contains no '/', ends the path, and is preceded by '/' unless it is the whole path |
| `Paths.CameraName` | isaacsim.framerate.measurement/FPS_Measurement_with_Camera_python/ui_builder.py:387-388 | a path without '/' is its own camera name |
| `Paths.CameraNameIsLastSegment` | isaacsim.framerate.measurement/FPS_Measurement_with_Camera_python/ui_builder.py:387-388 | the "/" in path guard is redundant: the camera name is always the last segment |
| `Paths.NormalizeSlashes` | isaacsim.framerate.measurement/FPS_Measurement_with_Camera_python/ui_builder.py:170 | every backslash becomes '/', every other character stays, and the length is kept |
| `Paths.PickedPath` | isaacsim.framerate.measurement/FPS_Measurement_with_Camera_python/ui_builder.py:167-170 | no file name sets nothing; otherwise the path is the normalised dirname, '/', then the normalised filename, with no backslash |
| `RecorderSpec.InitialInv` | isaacsim.framerate.measurement/FPS_Measurement_with_Camera_python/ui_builder.py:33-51 | the initial state has exclusive modes and an empty history |
| `RecorderSpec.AutoStopFrames` | isaacsim.framerate.measurement/FPS_Measurement_with_Camera_python/ui_builder.py:183-190 | the count is 0 for a duration <= 0, and otherwise the truncation of duration * 60 |
| `RecorderSpec.TinyDurationIsManual` | isaacsim.framerate.measurement/FPS_Measurement_with_Camera_python/ui_builder.py:184-185 | a positive duration under 1/60 s gives the manual count 0 |
| `RecorderSpec.AutoStopExamples` | isaacsim.framerate.measurement/FPS_Measurement_with_Camera_python/ui_builder.py:185 | 1.0 s gives 60 samples, and 0.995 s gives 59, not 60 |
| `RecorderSpec.SetViewportCamera` | isaacsim.framerate.measurement/FPS_Measurement_with_Camera_python/ui_builder.py:383-391 | with an active viewport the current camera becomes the given path; without one nothing changes; no other field ever changes |
| `RecorderSpec.FinalizeFpsRecord` | isaacsim.framerate.measurement/FPS_Measurement_with_Camera_python/ui_builder.py:302-308 | only the history changes; a run of no positive duration leaves it; otherwise the entry numbered len + 1 with rate frames / duration is pushed, and the history stays within five |
| `RecorderSpec.SampleDue` | isaacsim.framerate.measurement/FPS_Measurement_with_Camera_python/ui_builder.py:243 | a sample is due exactly when a whole sample interval has passed since the last one, so only at a strictly later clock |
| `RecorderSpec.CleanupPlaybackResources` | isaacsim.framerate.measurement/FPS_Measurement_with_Camera_python/ui_builder.py:291-300 | cleanup changes only the playback camera path, set to "", and the viewport camera, set to Persp when a viewport exists; it deletes the Recorded_Cam children of a valid /World |
| `RecorderSpec.StartRecording` | isaacsim.framerate.measurement/FPS_Measurement_with_Camera_python/ui_builder.py:176-190 | start leaves recording on and playing off, an empty log, sample clock 0 and the auto-stop count of the duration; it keeps the history unchanged even when leaving playback; from playback it clears the playback camera path and returns an active viewport to Persp, and otherwise keeps both; it deletes cameras only when playing |
| `RecorderSpec.Stop` | isaacsim.framerate.measurement/FPS_Measurement_with_Camera_python/ui_builder.py:196-208 | stop leaves both modes off and the log kept; from playback the whole new state is the old one with the rate entry finalised, the playback camera path cleared and an active viewport returned to Persp, and the cleanup's deletions; otherwise only the recording flag changes |
| `RecorderSpec.StopWhenIdle` | isaacsim.framerate.measurement/FPS_Measurement_with_Camera_python/ui_builder.py:196-208 | stopping an idle machine changes nothing at all |
| `RecorderSpec.Play` | isaacsim.framerate.measurement/FPS_Measurement_with_Camera_python/ui_builder.py:211-229 | an empty log changes nothing; otherwise, with a stage open, playing is on and recording off, the count is 0, the start time is now, and the free path is the playback and viewport camera; log, history and every other field are kept |
| `RecorderSpec.Tick` | isaacsim.framerate.measurement/FPS_Measurement_with_Camera_python/ui_builder.py:237-289 | a due recording tick with a valid camera appends exactly one sample and sets the sample clock to now, and changes nothing else but the recording flag; otherwise nothing changes; it stops recording in the same tick exactly when a positive count is reached; a playing tick stops at the end or counts one frame blending the bracketing samples; the invariant is kept |
| `RecorderSpec.PlaybackTickInBounds` | isaacsim.framerate.measurement/FPS_Measurement_with_Camera_python/ui_builder.py:258-289 | for now >= start: if idx0 >= len - 1 playback stops and the log is kept; otherwise 0 <= idx0 < idx0 + 1 <= len - 1, those two samples are shown, and the frame count rises by exactly 1 |
| `RecorderSpec.Load` | isaacsim.framerate.measurement/FPS_Measurement_with_Camera_python/ui_builder.py:345-363 | a load changes only the log; a failed read or parse keeps it; a parsed document sets it to the decoded prefix; the modes are untouched |
| `RecorderSpec.Shutdown` | isaacsim.framerate.measurement/FPS_Measurement_with_Camera_python/ui_builder.py:58-64 | teardown leaves both modes off, an empty log, the playback camera path cleared and an active viewport on Persp; every other field is kept, and the playback cameras are deleted |
| `RecorderSpec.SaveThenLoad` | isaacsim.framerate.measurement/FPS_Measurement_with_Camera_python/ui_builder.py:317-363 | saving a non-empty log and loading the records restores the log exactly and completes |
| `RecorderSpec.ThresholdKept` | isaacsim.framerate.measurement/FPS_Measurement_with_Camera_python/ui_builder.py:254-256 | start, stop, play and tick keep a positive-count recording's log below its count |
| `RecorderSpec.LoadCanOverrunThreshold` | isaacsim.framerate.measurement/FPS_Measurement_with_Camera_python/ui_builder.py:360-363 | a load into a recording can leave its log above the count while recording goes on |
| `RecorderSpec.IdleRun` | isaacsim.framerate.measurement/FPS_Measurement_with_Camera_python/ui_builder.py:242-258 | ticks change nothing while neither recording nor playing |
| `RecorderSpec.RecordingRun` | isaacsim.framerate.measurement/FPS_Measurement_with_Camera_python/ui_builder.py:242-256 | sampling ticks append one camera pose each; a manual recording never stops; a counted one stops on the tick that reaches the count and keeps exactly count samples |
| `RecorderSpec.OneSecondRecordingStopsItself` | isaacsim.framerate.measurement/FPS_Measurement_with_Camera_python/ui_builder.py:176-256 | a one-second recording fed 60 sampling ticks holds those 60 poses and stops by itself |
| `RecorderSpec.ManualRecordingOfTen` | isaacsim.framerate.measurement/FPS_Measurement_with_Camera_python/ui_builder.py:176-256 | a manual recording fed ten sampling ticks and then stopped is idle and holds those ten poses |
| `Recorder.CameraRecorder.constructor` | isaacsim.framerate.measurement/FPS_Measurement_with_Camera_python/ui_builder.py:33-51 | the fields start idle, with empty log and history, and the viewport on Persp |
| `Recorder.CameraRecorder.SetViewportCamera` | isaacsim.framerate.measurement/FPS_Measurement_with_Camera_python/ui_builder.py:383-391 | the viewport camera changes only when a viewport is active |
| `Recorder.CameraRecorder.CleanupPlaybackResources` | isaacsim.framerate.measurement/FPS_Measurement_with_Camera_python/ui_builder.py:291-300 | the fields and deleted paths are those of RecorderSpec.CleanupPlaybackResources, and Valid is kept |
| `Recorder.CameraRecorder.FinalizeFpsRecord` | isaacsim.framerate.measurement/FPS_Measurement_with_Camera_python/ui_builder.py:302-308 | the append and pop(0) leave the history that FpsHistory.Finalize gives, and Valid is kept |
| `Recorder.CameraRecorder.StartRecording` | isaacsim.framerate.measurement/FPS_Measurement_with_Camera_python/ui_builder.py:176-190 | the handler moves the fields as RecorderSpec.StartRecording does and keeps Valid |
| `Recorder.CameraRecorder.Stop` | isaacsim.framerate.measurement/FPS_Measurement_with_Camera_python/ui_builder.py:196-208 | the handler moves the fields as RecorderSpec.Stop does and keeps Valid |
| `Recorder.CameraRecorder.BeginPlayback` | isaacsim.framerate.measurement/FPS_Measurement_with_Camera_python/ui_builder.py:220-228 | the new playback camera goes to the viewport, playing is on and recording off, and the frame count starts at clock now, keeping Valid |
| `Recorder.CameraRecorder.Play` | isaacsim.framerate.measurement/FPS_Measurement_with_Camera_python/ui_builder.py:211-229 | the handler moves the fields and reports the outcome as RecorderSpec.Play does |
| `Recorder.CameraRecorder.DeleteCameras` | isaacsim.framerate.measurement/FPS_Measurement_with_Camera_python/ui_builder.py:233-235 | the Delete Cams handler is the playback cleanup |
| `Recorder.CameraRecorder.Tick` | isaacsim.framerate.measurement/FPS_Measurement_with_Camera_python/ui_builder.py:237-289 | the update callback moves the fields and reports the event as RecorderSpec.Tick does, and keeps Valid |
| `Recorder.CameraRecorder.RecordingTick` | isaacsim.framerate.measurement/FPS_Measurement_with_Camera_python/ui_builder.py:242-256 | the recording branch of the update callback moves the fields as RecorderSpec.Tick does, and keeps Valid |
| `Recorder.CameraRecorder.PlaybackTick` | isaacsim.framerate.measurement/FPS_Measurement_with_Camera_python/ui_builder.py:258-289 | the playback branch of the update callback moves the fields as RecorderSpec.Tick does, and keeps Valid |
| `Recorder.CameraRecorder.Save` | isaacsim.framerate.measurement/FPS_Measurement_with_Camera_python/ui_builder.py:317-326 | the record-building loop yields Codec.Save of the log, and refuses an empty log |
| `Recorder.CameraRecorder.Load` | isaacsim.framerate.measurement/FPS_Measurement_with_Camera_python/ui_builder.py:345-370 | a failed read or parse keeps the log; a parsed document clears it and, for an array, refills it by LoadRecords; the state and completion are those RecorderSpec.Load gives, and Valid is kept |
| `Recorder.CameraRecorder.LoadRecords` | isaacsim.framerate.measurement/FPS_Measurement_with_Camera_python/ui_builder.py:360-363 | the loop over a parsed array empties the log and refills it with the decodable prefix of the records, completing exactly when every record decodes |
| `Recorder.CameraRecorder.Shutdown` | isaacsim.framerate.measurement/FPS_Measurement_with_Camera_python/ui_builder.py:58-64 | the cleanup() handler moves the fields as RecorderSpec.Shutdown does |

## Left out

- All omni.ui layout, labels, styles, the log text field with its timestamps, the file-picker dialog and the rendering of history labels. These are presentation only.
- Text formatting of a rate entry (`#n: x.x FPS (y.yys)`). An entry keeps its number, rate and duration as values.
- File I/O through omni.client, UTF-8 and JSON text. Save stops at the list of records to write. Load starts from the outcome of the read: failed, unparsable, or a parsed JSON value.
- The USD stage API: defining the playback camera, copying camera attributes, finding or adding the transform op and setting the matrix, and executing DeletePrims. The stage is a `Scene` snapshot. The host's next free path is a parameter, and the paths to delete are returned.
- Gf.Slerp, Gf.Rotation and Gf.Matrix4d: a frame carries the two bracketing quaternions and the weight t, not a slerped rotation. Only Gf.Lerp on positions is modelled, on reals.
- Floating point: clock values and coordinates are reals. The float rounding of 1.0 / 60.0, of duration * 60 and of the index arithmetic is not modelled.
- The update-event subscription and time.time(): the clock is the `now` parameter of each handler. When playback ends inside a tick, the rate measurement uses that tick's `now`; the source reads the clock once more.
- Gf.Vec3d called with other than three coordinates, JSON booleans as coordinates, and nested arrays inside "p": the model treats these records as malformed. Gf's own conversions are not part of this model.
- Play with no open stage: the model assumes the host calls after the cleanup raise, so the state stays as the cleanup left it.
- `_playback_index` is never read or written after `__init__`, and the no-op hooks `on_menu_callback`, `on_timeline_event`, `on_physics_step` and `on_stage_event` do nothing.
- The camera-name comparison in `_set_viewport_camera` only decides whether a log line is written. Only the name extraction is modelled.
- The demo extension `kit-exts-project/exts/company.hello.world.kings/company/hello/world/kings/extension.py` (a click counter and two fixed host commands) is not part of this model.
- RecorderSpec.PlaybackTickInBounds: the in-bounds guarantee is stated for a clock at or after the playback start. For an earlier clock, `RecorderSpec.Tick` follows Python's negative indexing instead, which the model keeps.
