/**
 * The recorder/player state machine as functions on an immutable state value: one function per
 * handler of the recorder panel and one for the per-tick update, each returning the new state
 * and the prims the host is asked to delete. The class in module Recorder is proved to follow
 * these functions; the lemmas here state what they guarantee over one call and over runs.
 */
module RecorderSpec {
  import opened Wrappers
  import opened Poses
  import opened Playback
  import opened FpsHistory
  import opened Codec
  import opened Paths

  /** The camera the recorder samples and the viewport returns to after playback. */
  const PerspCameraPath: string := "/OmniverseKit_Persp"

  /** Every field of the recorder that its handlers read or write, UI widgets aside. */
  datatype RecorderState = RecorderState(
    recording: bool,              // _is_recording
    playing: bool,                // _is_playing
    log: seq<Pose>,               // _recorded_data
    playbackCameraPath: string,   // _playback_camera_path
    currentCamPath: string,       // _current_cam_path, the viewport's camera
    lastRecordTime: real,         // _last_record_time
    autoStopFrames: nat,          // _auto_stop_frames, 0 for a manual recording
    recordingStartTime: real,     // _recording_start_time
    fpsHistory: seq<FpsRecord>,   // _fps_history
    playbackStartTime: real,      // _playback_start_time
    playedFrameCount: nat)        // _played_frame_count

  /** The state a freshly built recorder starts in. */
  const Initial: RecorderState :=
    RecorderState(false, false, [], "", PerspCameraPath, 0.0, 0, 0.0, [], 0.0, 0)

  /**
   * What the host scene looks like when a handler runs: whether a stage is open and a viewport
   * is active, the names of the children of /World (None when /World is not a valid prim), the
   * world pose of /OmniverseKit_Persp (None when that prim is not valid), and whether the prim at
   * the playback camera path is valid.
   */
  datatype Scene = Scene(
    stageOpen: bool,
    viewportActive: bool,
    worldChildren: Option<seq<string>>,
    camera: Option<Pose>,
    playbackCameraValid: bool)

  /** A new state and the prim paths handed to the host's DeletePrims command (none when empty). */
  datatype Effect = Effect(state: RecorderState, deleted: seq<string>)

  /** Recording and playback are never active together. */
  ghost predicate ModesExclusive(s: RecorderState)
  {
    !(s.recording && s.playing)
  }

  /** The invariant every handler keeps: exclusive modes and a history of at most five entries. */
  ghost predicate Inv(s: RecorderState)
  {
    ModesExclusive(s) && |s.fpsHistory| <= MaxEntries
  }

  /** Initial satisfies the invariant. */
  lemma InitialInv()
    ensures Inv(Initial)
  {
  }

  /**
   * The auto-stop sample count for a configured duration, `int(duration * TargetFps)`: truncated,
   * not rounded, and 0 (a manual recording) for a duration that is not positive.
   */
  function AutoStopFrames(duration: real): (n: nat)
    ensures duration <= 0.0 ==> n == 0
    ensures duration > 0.0 ==> n as real <= duration * TargetFps < n as real + 1.0
  {
    if duration > 0.0 then Trunc(duration * TargetFps) else 0
  }

  /** A positive duration shorter than one sample interval truncates to 0 and records manually. */
  lemma TinyDurationIsManual(duration: real)
    requires 0.0 < duration < RecordInterval
    ensures AutoStopFrames(duration) == 0
  {
  }

  /** One second at 60 samples per second stops after 60 samples; 0.995 s truncates to 59, not 60. */
  lemma AutoStopExamples()
    ensures AutoStopFrames(1.0) == 60
    ensures AutoStopFrames(0.995) == 59
  {
    assert Trunc(60.0) == 60;
    assert Trunc(59.7) == 59;
  }

  /** The viewport switch: it takes effect only when a viewport is active. */
  function SetViewportCamera(s: RecorderState, path: string, scene: Scene): (r: RecorderState)
    ensures r.currentCamPath == if scene.viewportActive then path else s.currentCamPath
    ensures r == s.(currentCamPath := r.currentCamPath)
  {
    if scene.viewportActive then s.(currentCamPath := path) else s
  }

  /**
   * Playback cleanup: the viewport returns to the Persp camera, every /World child named
   * "Recorded_Cam..." is deleted and the playback camera path is forgotten. Modes, log, clocks and
   * history are untouched.
   */
  function CleanupPlaybackResources(s: RecorderState, scene: Scene): (e: Effect)
    ensures e.state.(playbackCameraPath := s.playbackCameraPath, currentCamPath := s.currentCamPath) == s
    ensures e.state.playbackCameraPath == ""
    ensures e.state.currentCamPath == if scene.viewportActive then PerspCameraPath else s.currentCamPath
    ensures e.deleted == if scene.stageOpen && scene.worldChildren.Some? then RecordedCamPaths(scene.worldChildren.value) else []
  {
    var s1 := SetViewportCamera(s, PerspCameraPath, scene);
    var deleted := if scene.stageOpen && scene.worldChildren.Some? then RecordedCamPaths(scene.worldChildren.value) else [];
    Effect(s1.(playbackCameraPath := ""), deleted)
  }

  /** Closes the current playback run's rate measurement at clock `now`. */
  function FinalizeFpsRecord(s: RecorderState, now: real): (r: RecorderState)
    ensures r == s.(fpsHistory := r.fpsHistory)
    ensures now <= s.playbackStartTime ==> r == s
    ensures now > s.playbackStartTime ==>
      var d := now - s.playbackStartTime;
      r.fpsHistory == Push(s.fpsHistory, FpsRecord(|s.fpsHistory| + 1, s.playedFrameCount as real / d, d))
    ensures |s.fpsHistory| <= MaxEntries ==> |r.fpsHistory| <= MaxEntries
  {
    var d := now - s.playbackStartTime;
    s.(fpsHistory := Finalize(s.fpsHistory, s.playedFrameCount, d))
  }

  /**
   * Start: valid in any state. Leaving playback cleans up its camera but records no rate sample.
   * The log is emptied, the sample clock reset to 0 and the auto-stop count armed from `duration`.
   */
  function StartRecording(s: RecorderState, duration: real, now: real, scene: Scene): (e: Effect)
    ensures e.state.recording && !e.state.playing
    ensures e.state.log == [] && e.state.lastRecordTime == 0.0
    ensures e.state.autoStopFrames == AutoStopFrames(duration)
    ensures e.state.recordingStartTime == if duration > 0.0 then now else s.recordingStartTime
    ensures e.state.fpsHistory == s.fpsHistory
    ensures e.state.playedFrameCount == s.playedFrameCount && e.state.playbackStartTime == s.playbackStartTime
    ensures s.playing ==> e.deleted == CleanupPlaybackResources(s, scene).deleted && e.state.playbackCameraPath == ""
    ensures s.playing ==> e.state.currentCamPath == if scene.viewportActive then PerspCameraPath else s.currentCamPath
    ensures !s.playing ==> e.deleted == [] && e.state.playbackCameraPath == s.playbackCameraPath && e.state.currentCamPath == s.currentCamPath
    ensures Inv(s) ==> Inv(e.state)
  {
    var c := if s.playing then CleanupPlaybackResources(s, scene) else Effect(s, []);
    var s1 := c.state.(recording := true, playing := false, log := [], lastRecordTime := 0.0);
    var s2 :=
      if duration > 0.0 then s1.(autoStopFrames := AutoStopFrames(duration), recordingStartTime := now)
      else s1.(autoStopFrames := 0);
    Effect(s2, c.deleted)
  }

  /**
   * Stop: leaving playback first records the run's rate and cleans up its camera; then both modes
   * are off. Stopping an idle or recording machine changes nothing but the recording flag.
   */
  function Stop(s: RecorderState, now: real, scene: Scene): (e: Effect)
    ensures !e.state.recording && !e.state.playing
    ensures e.state.log == s.log
    ensures s.playing ==> e.state == s.(
      recording := false, playing := false, playbackCameraPath := "",
      currentCamPath := if scene.viewportActive then PerspCameraPath else s.currentCamPath,
      fpsHistory := Finalize(s.fpsHistory, s.playedFrameCount, now - s.playbackStartTime))
    ensures s.playing ==> e.deleted == CleanupPlaybackResources(s, scene).deleted
    ensures !s.playing ==> e == Effect(s.(recording := false), [])
    ensures Inv(s) ==> Inv(e.state)
  {
    if s.playing then
      var f := FinalizeFpsRecord(s, now);
      var c := CleanupPlaybackResources(f, scene);
      assert c.deleted == CleanupPlaybackResources(s, scene).deleted;
      assert f.fpsHistory == Finalize(s.fpsHistory, s.playedFrameCount, now - s.playbackStartTime);
      assert |s.fpsHistory| <= MaxEntries ==> |f.fpsHistory| <= MaxEntries;
      assert c.state == f.(playbackCameraPath := "", currentCamPath := c.state.currentCamPath);
      var st := c.state.(recording := false, playing := false);
      assert st == s.(
        recording := false, playing := false, playbackCameraPath := "",
        currentCamPath := if scene.viewportActive then PerspCameraPath else s.currentCamPath,
        fpsHistory := Finalize(s.fpsHistory, s.playedFrameCount, now - s.playbackStartTime));
      Effect(st, c.deleted)
    else
      Effect(s.(recording := false), [])
  }

  /** Stopping when nothing is active changes nothing at all. */
  lemma StopWhenIdle(s: RecorderState, now: real, scene: Scene)
    requires !s.recording && !s.playing
    ensures Stop(s, now, scene) == Effect(s, [])
  {
  }

  /** How a play request ended. */
  datatype PlayOutcome =
    | NoData        // the log is empty: nothing happens
    | NoStageOpen   // no stage: the host calls after the cleanup raise
    | PlayStarted

  datatype PlayResult = PlayResult(effect: Effect, outcome: PlayOutcome)

  /**
   * Play: refused with an empty log. Otherwise any earlier playback camera is cleaned up (without
   * a rate sample), the host's free path under /World/Recorded_Cam becomes the playback camera
   * and the viewport's camera, and playback starts at clock `now` with no frame produced.
   */
  function Play(s: RecorderState, now: real, scene: Scene, freePath: string): (r: PlayResult)
    ensures s.log == [] ==> r == PlayResult(Effect(s, []), NoData)
    ensures s.log != [] && !scene.stageOpen ==> r == PlayResult(CleanupPlaybackResources(s, scene), NoStageOpen)
    ensures s.log != [] && scene.stageOpen ==>
      var st := r.effect.state;
      && r.outcome == PlayStarted
      && st.playing && !st.recording
      && st.playedFrameCount == 0 && st.playbackStartTime == now
      && st.playbackCameraPath == freePath
      && st.currentCamPath == (if scene.viewportActive then freePath else s.currentCamPath)
      && st.log == s.log && st.fpsHistory == s.fpsHistory
      && r.effect.deleted == CleanupPlaybackResources(s, scene).deleted
    ensures s.log != [] && scene.stageOpen ==> r.effect.state == s.(
      playing := true, recording := false, playbackStartTime := now, playedFrameCount := 0,
      playbackCameraPath := freePath,
      currentCamPath := if scene.viewportActive then freePath else s.currentCamPath)
    ensures Inv(s) ==> Inv(r.effect.state)
  {
    if s.log == [] then PlayResult(Effect(s, []), NoData)
    else
      var c := CleanupPlaybackResources(s, scene);
      if !scene.stageOpen then PlayResult(c, NoStageOpen)
      else
        var s1 := SetViewportCamera(c.state.(playbackCameraPath := freePath), freePath, scene);
        var s2 := s1.(playing := true, recording := false, playbackStartTime := now, playedFrameCount := 0);
        PlayResult(Effect(s2, c.deleted), PlayStarted)
  }

  /** A recording tick takes a sample once a whole sample interval has passed since the last one. */
  predicate SampleDue(lastRecordTime: real, now: real): (due: bool)
    ensures due <==> now >= lastRecordTime + RecordInterval
    ensures due ==> now > lastRecordTime
  {
    now - lastRecordTime >= RecordInterval
  }

  /** What one update tick did. */
  datatype TickEvent =
    | NoStage                // no stage is open: the tick returns at once
    | Inactive               // neither recording nor playing
    | NotDue                 // recording, but the sample interval has not passed
    | NoCamera               // recording, but the Persp camera prim is not valid
    | Sampled(pose: Pose, autoStopped: bool)
    | PlaybackDone           // the index reached the last sample and playback stopped
    | PlaybackFault          // reading the log raised IndexError
    | Frame(pos: Vec3, from: Quat, to: Quat, t: real, applied: bool)
      // the interpolated frame: position blended, rotation to be slerped from `from` to `to`
      // by `t`; `applied` when the playback camera prim was valid and received it

  datatype TickResult = TickResult(effect: Effect, event: TickEvent)

  /**
   * The per-tick update. While recording, a due tick with a valid camera appends exactly one
   * sample and moves the sample clock to `now`, stopping the recording in the same tick once a
   * positive auto-stop count is reached. While playing, the tick shows the blend of the two
   * samples around the elapsed time and counts one produced frame, or stops playback once the
   * index reaches the last sample.
   */
  function Tick(s: RecorderState, now: real, scene: Scene): (r: TickResult)
    ensures !scene.stageOpen ==> r == TickResult(Effect(s, []), NoStage)
    ensures scene.stageOpen && !s.recording && !s.playing ==> r == TickResult(Effect(s, []), Inactive)
    ensures scene.stageOpen && s.recording ==>
      if SampleDue(s.lastRecordTime, now) && scene.camera.Some? then
        var st := r.effect.state;
        && r.event == Sampled(scene.camera.value, !st.recording)
        && st.log == s.log + [scene.camera.value]
        && st.lastRecordTime == now
        && (st.recording <==> !(s.autoStopFrames > 0 && |s.log| + 1 >= s.autoStopFrames))
        && (!s.playing ==>
              && r.effect.deleted == []
              && st == s.(log := s.log + [scene.camera.value], lastRecordTime := now, recording := st.recording))
      else r.effect == Effect(s, [])
    ensures scene.stageOpen && !s.recording && s.playing ==>
      match PlaybackStep(|s.log|, now - s.playbackStartTime)
      case Finished => r == TickResult(Stop(s, now, scene), PlaybackDone)
      case IndexFault => r == TickResult(Effect(s, []), PlaybackFault)
      case Blend(i0, i1, t) =>
        && r.effect == Effect(s.(playedFrameCount := s.playedFrameCount + 1), [])
        && r.event == Frame(Lerp(t, s.log[i0].pos, s.log[i1].pos), s.log[i0].rot, s.log[i1].rot, t, scene.playbackCameraValid)
    ensures Inv(s) ==> Inv(r.effect.state)
  {
    if !scene.stageOpen then TickResult(Effect(s, []), NoStage)
    else if s.recording then
      if !SampleDue(s.lastRecordTime, now) then TickResult(Effect(s, []), NotDue)
      else
        match scene.camera
        case None => TickResult(Effect(s, []), NoCamera)
        case Some(pose) =>
          var s1 := s.(log := s.log + [pose], lastRecordTime := now);
          if s1.autoStopFrames > 0 && |s1.log| >= s1.autoStopFrames then
            TickResult(Stop(s1, now, scene), Sampled(pose, true))
          else
            TickResult(Effect(s1, []), Sampled(pose, false))
    else if s.playing then
      match PlaybackStep(|s.log|, now - s.playbackStartTime)
      case Finished => TickResult(Stop(s, now, scene), PlaybackDone)
      case IndexFault => TickResult(Effect(s, []), PlaybackFault)
      case Blend(i0, i1, t) =>
        var frame := Frame(Lerp(t, s.log[i0].pos, s.log[i1].pos), s.log[i0].rot, s.log[i1].rot, t, scene.playbackCameraValid);
        TickResult(Effect(s.(playedFrameCount := s.playedFrameCount + 1), []), frame)
    else TickResult(Effect(s, []), Inactive)
  }

  /**
   * For a clock that has not run back past the playback start, a playing tick either stops
   * playback without reading the log, or reads the two adjacent samples `idx0` and `idx0 + 1`,
   * both inside the log, and counts exactly one more frame.
   */
  lemma PlaybackTickInBounds(s: RecorderState, now: real, scene: Scene)
    requires scene.stageOpen && !s.recording && s.playing
    requires now >= s.playbackStartTime
    ensures var r := Tick(s, now, scene);
      var idx0 := FrameIndex(now - s.playbackStartTime);
      if idx0 >= |s.log| - 1 then
        r.event == PlaybackDone && !r.effect.state.playing && r.effect.state.log == s.log
      else
        && 0 <= idx0 < idx0 + 1 <= |s.log| - 1
        && r.event.Frame?
        && r.event.from == s.log[idx0].rot && r.event.to == s.log[idx0 + 1].rot
        && r.effect.state.playedFrameCount == s.playedFrameCount + 1
        && r.effect.state.playing
  {
    var st := PlaybackStep(|s.log|, now - s.playbackStartTime);
    assert st.Finished? <==> FrameIndex(now - s.playbackStartTime) >= |s.log| - 1;
  }

  /** What a file read delivered to the load handler. */
  datatype ReadResult =
    | ReadFailed            // the storage client reported an error
    | Unparsable            // the content is not UTF-8 JSON: json.loads raised
    | Parsed(data: Json)

  datatype LoadResult = LoadResult(state: RecorderState, complete: bool)

  /**
   * Load: a failed read or parse leaves the log as it was. A parsed document replaces the log by
   * the poses decoded before the first malformed record. The modes are never touched.
   */
  function Load(s: RecorderState, read: ReadResult): (r: LoadResult)
    ensures r.state == s.(log := r.state.log)
    ensures !read.Parsed? ==> r == LoadResult(s, false)
    ensures read.Parsed? ==> r.state.log == LoadedLog(read.data).log && r.complete == LoadedLog(read.data).complete
    ensures Inv(s) ==> Inv(r.state)
  {
    match read
    case Parsed(data) =>
      var loaded := LoadedLog(data);
      LoadResult(s.(log := loaded.log), loaded.complete)
    case _ => LoadResult(s, false)
  }

  /** Teardown of the panel (`cleanup`): both modes off, the log emptied, playback cleaned up. */
  function Shutdown(s: RecorderState, scene: Scene): (e: Effect)
    ensures !e.state.recording && !e.state.playing && e.state.log == []
    ensures e.state.fpsHistory == s.fpsHistory && e.state.playbackCameraPath == ""
    ensures e.state == s.(
      recording := false, playing := false, log := [], playbackCameraPath := "",
      currentCamPath := if scene.viewportActive then PerspCameraPath else s.currentCamPath)
    ensures e.deleted == CleanupPlaybackResources(s, scene).deleted
    ensures Inv(s) ==> Inv(e.state)
  {
    CleanupPlaybackResources(s.(recording := false, playing := false, log := []), scene)
  }

  /** Saving a non-empty log and loading what it wrote restores the log exactly. */
  lemma SaveThenLoad(s: RecorderState, t: RecorderState)
    requires s.log != []
    ensures Save(s.log).Success?
    ensures Load(t, Parsed(Arr(Save(s.log).value))) == LoadResult(t.(log := s.log), true)
  {
    LoadSaved(s.log);
  }

  // ---------------------------------------------------------------------------------------
  // The auto-stop threshold over a recording run

  /** While a recording with a positive auto-stop count runs, the log stays below that count. */
  ghost predicate WithinThreshold(s: RecorderState)
  {
    s.recording && s.autoStopFrames > 0 ==> |s.log| < s.autoStopFrames
  }

  /** Start, stop, play and ticks keep the log below the auto-stop count. */
  lemma ThresholdKept(s: RecorderState, duration: real, now: real, scene: Scene, freePath: string)
    requires Inv(s) && WithinThreshold(s)
    ensures WithinThreshold(StartRecording(s, duration, now, scene).state)
    ensures WithinThreshold(Stop(s, now, scene).state)
    ensures WithinThreshold(Play(s, now, scene, freePath).effect.state)
    ensures WithinThreshold(Tick(s, now, scene).effect.state)
  {
  }

  /**
   * Load does not: loading two poses into a recording that stops after one leaves it recording
   * with a log longer than its auto-stop count.
   */
  lemma LoadCanOverrunThreshold(s: RecorderState, p: Pose)
    requires s.recording && !s.playing && s.autoStopFrames == 1 && s.log == []
    ensures var r := Load(s, Parsed(Arr(Encode([p, p]))));
      r.state.recording && |r.state.log| == 2 && !WithinThreshold(r.state)
  {
    LoadSaved([p, p]);
  }

  /** One clock reading and one scene snapshot fed to the update tick. */
  datatype TickInput = TickInput(now: real, scene: Scene)

  /** The state after a sequence of update ticks. */
  function RunTicks(s: RecorderState, ticks: seq<TickInput>): RecorderState
    decreases |ticks|
  {
    if ticks == [] then s else RunTicks(Tick(s, ticks[0].now, ticks[0].scene).effect.state, ticks[1..])
  }

  /**
   * Every tick finds a stage and a valid camera, the first comes at least one sample interval
   * after `last` and each later one at least one interval after its predecessor.
   */
  ghost predicate SamplingTicks(last: real, ticks: seq<TickInput>)
    decreases |ticks|
  {
    ticks == [] ||
    (ticks[0].scene.stageOpen && ticks[0].scene.camera.Some? && SampleDue(last, ticks[0].now) &&
     SamplingTicks(ticks[0].now, ticks[1..]))
  }

  /** The camera poses the ticks offer, in order. */
  function Cameras(ticks: seq<TickInput>): seq<Pose>
    decreases |ticks|
  {
    if ticks == [] then []
    else
      match ticks[0].scene.camera
      case Some(p) => [p] + Cameras(ticks[1..])
      case None => Cameras(ticks[1..])
  }

  /** Sampling ticks offer one camera pose each. */
  lemma {:induction false} SamplingTicksOfferCameras(last: real, ticks: seq<TickInput>)
    requires SamplingTicks(last, ticks)
    ensures |Cameras(ticks)| == |ticks|
    decreases |ticks|
  {
    if ticks != [] {
      SamplingTicksOfferCameras(ticks[0].now, ticks[1..]);
    }
  }

  /** Ticks leave a machine that neither records nor plays alone. */
  lemma {:induction false} IdleRun(s: RecorderState, ticks: seq<TickInput>)
    requires !s.recording && !s.playing
    ensures RunTicks(s, ticks) == s
    decreases |ticks|
  {
    if ticks != [] {
      IdleRun(s, ticks[1..]);
    }
  }

  /** How many of `k` sampling ticks a recording in state `s` keeps before it stops itself. */
  function Kept(s: RecorderState, k: nat): nat
  {
    if s.autoStopFrames == 0 then k
    else if s.autoStopFrames <= |s.log| then 0
    else Min(k, s.autoStopFrames - |s.log|)
  }

  /**
   * A recording fed sampling ticks appends one camera pose per tick. A manual recording goes on
   * for ever; one with a positive count stops on the very tick whose sample reaches the count,
   * and the later ticks add nothing.
   */
  lemma {:induction false} RecordingRun(s: RecorderState, ticks: seq<TickInput>)
    requires s.recording && !s.playing && WithinThreshold(s)
    requires SamplingTicks(s.lastRecordTime, ticks)
    ensures |Cameras(ticks)| == |ticks|
    ensures RunTicks(s, ticks).log == s.log + Cameras(ticks)[..Kept(s, |ticks|)]
    ensures RunTicks(s, ticks).recording <==> s.autoStopFrames == 0 || |s.log| + |ticks| < s.autoStopFrames
    ensures !RunTicks(s, ticks).playing
    decreases |ticks|
  {
    if ticks != [] {
      var t0 := ticks[0];
      var p := t0.scene.camera.value;
      var s1 := Tick(s, t0.now, t0.scene).effect.state;
      assert s1.log == s.log + [p] && s1.lastRecordTime == t0.now;
      assert Cameras(ticks) == [p] + Cameras(ticks[1..]);
      if s1.recording {
        RecordingRun(s1, ticks[1..]);
        assert Kept(s, |ticks|) == Kept(s1, |ticks| - 1) + 1;
        assert Cameras(ticks)[..Kept(s, |ticks|)] == [p] + Cameras(ticks[1..])[..Kept(s1, |ticks| - 1)];
      } else {
        IdleRun(s1, ticks[1..]);
        SamplingTicksOfferCameras(t0.now, ticks[1..]);
        assert Kept(s, |ticks|) == 1;
      }
    }
  }

  /**
   * Starting a one-second recording and feeding it 60 sampling ticks captures 60 poses and stops
   * without a stop request.
   */
  lemma OneSecondRecordingStopsItself(s: RecorderState, now: real, scene: Scene, ticks: seq<TickInput>)
    requires |ticks| == 60 && SamplingTicks(0.0, ticks)
    ensures var r := RunTicks(StartRecording(s, 1.0, now, scene).state, ticks);
      !r.recording && !r.playing && r.log == Cameras(ticks)
  {
    var s0 := StartRecording(s, 1.0, now, scene).state;
    AutoStopExamples();
    RecordingRun(s0, ticks);
  }

  /**
   * A manual recording fed ten sampling ticks and then stopped holds exactly those ten poses and
   * is idle.
   */
  lemma ManualRecordingOfTen(s: RecorderState, now: real, scene: Scene, ticks: seq<TickInput>, stopAt: real)
    requires |ticks| == 10 && SamplingTicks(0.0, ticks)
    ensures var r := Stop(RunTicks(StartRecording(s, 0.0, now, scene).state, ticks), stopAt, scene).state;
      !r.recording && !r.playing && r.log == Cameras(ticks) && |r.log| == 10
  {
    var s0 := StartRecording(s, 0.0, now, scene).state;
    RecordingRun(s0, ticks);
  }
}
