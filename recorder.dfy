/**
 * The camera motion recorder/player as the object the panel owns: its fields are updated in
 * place by the button handlers and the per-tick update, and every method is proved to move the
 * object exactly as the matching function of module RecorderSpec moves the state value.
 */
module Recorder {
  import opened Wrappers
  import opened Poses
  import opened Playback
  import opened FpsHistory
  import opened Codec
  import opened Paths
  import opened RecorderSpec

  class CameraRecorder {
    var isRecording: bool
    var isPlaying: bool
    var recordedData: seq<Pose>
    var playbackCameraPath: string
    var currentCamPath: string
    var lastRecordTime: real
    var autoStopFrames: nat
    var recordingStartTime: real
    var fpsHistory: seq<FpsRecord>
    var playbackStartTime: real
    var playedFrameCount: nat

    /** The object's fields as a state value. */
    function State(): RecorderState
      reads this
    {
      RecorderState(isRecording, isPlaying, recordedData, playbackCameraPath, currentCamPath,
                    lastRecordTime, autoStopFrames, recordingStartTime, fpsHistory,
                    playbackStartTime, playedFrameCount)
    }

    /** The object invariant: exclusive modes and a bounded rate history. */
    ghost predicate Valid()
      reads this
    {
      Inv(State())
    }

    /** Idle, with an empty log and history, the viewport on the Persp camera. */
    constructor ()
      ensures State() == Initial && Valid()
    {
      isRecording := false;
      isPlaying := false;
      recordedData := [];
      playbackCameraPath := "";
      currentCamPath := PerspCameraPath;
      lastRecordTime := 0.0;
      autoStopFrames := 0;
      recordingStartTime := 0.0;
      fpsHistory := [];
      playbackStartTime := 0.0;
      playedFrameCount := 0;
    }

    /** Switches the active viewport, if there is one, to the camera at `path`. */
    method SetViewportCamera(path: string, scene: Scene)
      modifies this
      ensures State() == RecorderSpec.SetViewportCamera(old(State()), path, scene)
    {
      if scene.viewportActive {
        currentCamPath := path;
      }
    }

    /** Returns the viewport to the Persp camera and deletes every playback camera under /World. */
    method CleanupPlaybackResources(scene: Scene) returns (deleted: seq<string>)
      requires Valid()
      modifies this
      ensures Valid()
      ensures Effect(State(), deleted) == RecorderSpec.CleanupPlaybackResources(old(State()), scene)
    {
      SetViewportCamera(PerspCameraPath, scene);
      deleted := [];
      if scene.stageOpen {
        match scene.worldChildren
        case Some(children) =>
          deleted := RecordedCamPaths(children);
        case None =>
      }
      playbackCameraPath := "";
    }

    /** Records the realised rate of the playback run that ends at clock `now`. */
    method FinalizeFpsRecord(now: real)
      requires Valid()
      modifies this
      ensures Valid()
      ensures State() == RecorderSpec.FinalizeFpsRecord(old(State()), now)
    {
      var duration := now - playbackStartTime;
      if duration <= 0.0 {
        return;
      }
      ghost var h := fpsHistory;
      var realFps := playedFrameCount as real / duration;
      var rec := FpsRecord(|fpsHistory| + 1, realFps, duration);
      fpsHistory := fpsHistory + [rec];
      if |fpsHistory| > MaxEntries {
        fpsHistory := fpsHistory[1..];
      }
      assert fpsHistory == Push(h, rec);
    }

    /** The Start button, with the auto-stop duration field's value. */
    method StartRecording(duration: real, now: real, scene: Scene) returns (deleted: seq<string>)
      requires Valid()
      modifies this
      ensures Valid()
      ensures Effect(State(), deleted) == RecorderSpec.StartRecording(old(State()), duration, now, scene)
    {
      deleted := [];
      if isPlaying {
        deleted := CleanupPlaybackResources(scene);
      }
      isRecording := true;
      isPlaying := false;
      recordedData := [];
      lastRecordTime := 0.0;
      if duration > 0.0 {
        autoStopFrames := Trunc(duration * TargetFps);
        recordingStartTime := now;
      } else {
        autoStopFrames := 0;
      }
    }

    /** The Stop button, also called by the tick when recording or playback ends by itself. */
    method Stop(now: real, scene: Scene) returns (deleted: seq<string>)
      requires Valid()
      modifies this
      ensures Valid()
      ensures Effect(State(), deleted) == RecorderSpec.Stop(old(State()), now, scene)
    {
      var wasPlaying := isPlaying;
      deleted := [];
      if wasPlaying {
        FinalizeFpsRecord(now);
        deleted := CleanupPlaybackResources(scene);
      }
      isRecording := false;
      isPlaying := false;
    }

    /** The Play Recording button; `freePath` is the host's next free path for /World/Recorded_Cam. */
    method Play(now: real, scene: Scene, freePath: string) returns (outcome: PlayOutcome, deleted: seq<string>)
      requires Valid()
      modifies this
      ensures Valid()
      ensures PlayResult(Effect(State(), deleted), outcome) == RecorderSpec.Play(old(State()), now, scene, freePath)
    {
      deleted := [];
      if recordedData == [] {
        outcome := NoData;
        return;
      }
      deleted := CleanupPlaybackResources(scene);
      if !scene.stageOpen {
        outcome := NoStageOpen;
        return;
      }
      BeginPlayback(now, scene, freePath);
      outcome := PlayStarted;
    }

    /** Points the viewport at the new playback camera and starts the frame count at clock `now`. */
    method BeginPlayback(now: real, scene: Scene, freePath: string)
      requires Valid()
      modifies this
      ensures Valid()
      ensures State() == RecorderSpec.SetViewportCamera(old(State()).(playbackCameraPath := freePath), freePath, scene)
        .(playing := true, recording := false, playbackStartTime := now, playedFrameCount := 0)
    {
      playbackCameraPath := freePath;
      SetViewportCamera(playbackCameraPath, scene);
      isPlaying := true;
      isRecording := false;
      playbackStartTime := now;
      playedFrameCount := 0;
    }

    /** The Delete Cams button: the playback cleanup on its own, in any state. */
    method DeleteCameras(scene: Scene) returns (deleted: seq<string>)
      requires Valid()
      modifies this
      ensures Valid()
      ensures Effect(State(), deleted) == RecorderSpec.CleanupPlaybackResources(old(State()), scene)
    {
      deleted := CleanupPlaybackResources(scene);
    }

    /** The update-event callback, with the clock reading and the scene passed in. */
    method Tick(now: real, scene: Scene) returns (event: TickEvent, deleted: seq<string>)
      requires Valid()
      modifies this
      ensures Valid()
      ensures TickResult(Effect(State(), deleted), event) == RecorderSpec.Tick(old(State()), now, scene)
    {
      deleted := [];
      if !scene.stageOpen {
        event := NoStage;
        return;
      }
      if isRecording {
        event, deleted := RecordingTick(now, scene);
      } else if isPlaying {
        event, deleted := PlaybackTick(now, scene);
      } else {
        event := Inactive;
      }
    }

    /** The recording half of the update callback: take a sample once the interval has passed. */
    method RecordingTick(now: real, scene: Scene) returns (event: TickEvent, deleted: seq<string>)
      requires Valid() && scene.stageOpen && isRecording
      modifies this
      ensures Valid()
      ensures TickResult(Effect(State(), deleted), event) == RecorderSpec.Tick(old(State()), now, scene)
    {
      deleted := [];
      if now - lastRecordTime >= RecordInterval {
        match scene.camera
        case None =>
          event := NoCamera;
        case Some(pose) =>
          recordedData := recordedData + [pose];
          lastRecordTime := now;
          if autoStopFrames > 0 && |recordedData| >= autoStopFrames {
            deleted := Stop(now, scene);
            event := Sampled(pose, true);
          } else {
            event := Sampled(pose, false);
          }
      } else {
        event := NotDue;
      }
    }

    /** The playback half of the update callback: stop at the end, or show one blended frame. */
    method PlaybackTick(now: real, scene: Scene) returns (event: TickEvent, deleted: seq<string>)
      requires Valid() && scene.stageOpen && !isRecording && isPlaying
      modifies this
      ensures Valid()
      ensures TickResult(Effect(State(), deleted), event) == RecorderSpec.Tick(old(State()), now, scene)
    {
      deleted := [];
      var elapsed := now - playbackStartTime;
      var floatIdx := elapsed * TargetFps;
      var idx0 := Trunc(floatIdx);
      var idx1 := idx0 + 1;
      var t := floatIdx - idx0 as real;
      if idx0 >= |recordedData| - 1 {
        deleted := Stop(now, scene);
        event := PlaybackDone;
        return;
      }
      var at0 := PyIndex(|recordedData|, idx0);
      if at0.None? {
        event := PlaybackFault;
        return;
      }
      var at1 := PyIndex(|recordedData|, idx1);
      if at1.None? {
        event := PlaybackFault;
        return;
      }
      var data0 := recordedData[at0.value];
      var data1 := recordedData[at1.value];
      var interpPos := Lerp(t, data0.pos, data1.pos);
      event := Frame(interpPos, data0.rot, data1.rot, t, scene.playbackCameraValid);
      playedFrameCount := playedFrameCount + 1;
    }

    /** The Save JSON button up to the write: the records to serialise, or the empty-log refusal. */
    method Save() returns (r: Result<seq<Json>, SaveError>)
      ensures r == Codec.Save(recordedData)
    {
      if recordedData == [] {
        return Failure(EmptyLog);
      }
      var out: seq<Json> := [];
      for i := 0 to |recordedData|
        invariant |out| == i
        invariant forall k :: 0 <= k < i ==> out[k] == EncodePose(recordedData[k])
      {
        out := out + [EncodePose(recordedData[i])];
      }
      assert out == Encode(recordedData);
      return Success(out);
    }

    /**
     * The Load JSON button from the read on: the log is replaced only once the content parsed,
     * and is filled record by record until a malformed one aborts the load.
     */
    method Load(read: ReadResult) returns (complete: bool)
      requires Valid()
      modifies this
      ensures Valid()
      ensures LoadResult(State(), complete) == RecorderSpec.Load(old(State()), read)
    {
      match read
      case ReadFailed =>
        return false;
      case Unparsable =>
        return false;
      case Parsed(data) =>
        match data
        case Arr(items) =>
          complete := LoadRecords(items);
        case Obj(fields) =>
          // iterating an object yields its keys, and no string accepts the lookup d["p"]
          recordedData := [];
          complete := fields == map[];
        case Str(text) =>
          // iterating a string yields one-character strings, which fail the same way
          recordedData := [];
          complete := text == "";
        case _ =>
          // a number, null or boolean cannot be iterated
          recordedData := [];
          complete := false;
    }

    /**
     * `for d in data` over a parsed array: the log is emptied, then filled record by record
     * until a malformed one aborts the load.
     */
    method LoadRecords(items: seq<Json>) returns (complete: bool)
      modifies this
      ensures State() == old(State()).(log := DecodePrefix(items))
      ensures complete <==> |DecodePrefix(items)| == |items|
    {
      recordedData := [];
      var i := 0;
      while i < |items|
        invariant 0 <= i <= |items|
        invariant |recordedData| == i
        invariant forall k :: 0 <= k < i ==> DecodeItem(items[k]) == Some(recordedData[k])
        invariant State() == old(State()).(log := recordedData)
      {
        var pose := DecodeItem(items[i]);
        if pose.None? {
          DecodePrefixUnique(items, recordedData);
          return false;
        }
        recordedData := recordedData + [pose.value];
        i := i + 1;
      }
      DecodePrefixUnique(items, recordedData);
      complete := true;
    }

    /** Teardown of the panel. */
    method Shutdown(scene: Scene) returns (deleted: seq<string>)
      requires Valid()
      modifies this
      ensures Valid()
      ensures Effect(State(), deleted) == RecorderSpec.Shutdown(old(State()), scene)
    {
      isRecording := false;
      isPlaying := false;
      recordedData := [];
      deleted := CleanupPlaybackResources(scene);
    }
  }
}
