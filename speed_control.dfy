/**
 * VideoRecordWithSpeedControl: a multi-tab recorder whose video is encoded
 * at a chosen playback speed. Each recorded tab gets its own
 * instrumentation session and frame listener; a new page tab can take over
 * the recording automatically or on request; closing a tab releases its
 * resources; frames with odd sizes are cropped to even ones before
 * encoding.
 *
 * The browser, the image files and the encoder process are outside the
 * model: the target list, the outcome of each step of binding a tab, the
 * image sizes and the encoder's exit code are parameters.
 */
module SpeedControl {
  import opened Common
  import TestBase

  // ---------------------------------------------------------------------
  // Playback speed
  // ---------------------------------------------------------------------

  /** The VideoSpeed enum. */
  datatype VideoSpeed = RealTime | SlowMotion | VerySlow | Fast

  /** The encoder's input frame rate for each speed, in frames per second. */
  function FrameRate(speed: VideoSpeed): (fps: nat)
  {
    match speed
    case RealTime => 5
    case SlowMotion => 2
    case VerySlow => 1
    case Fast => 10
  }

  /** The frame rate as String.valueOf(double) writes a whole number into the encoder command: its digits and ".0". */
  function FrameRateText(speed: VideoSpeed): string
  {
    NatToString(FrameRate(speed)) + ".0"
  }

  const DefaultSpeed := SlowMotion
  const DefaultCaptureIntervalMs := 400

  // ---------------------------------------------------------------------
  // Even frame sizes
  // ---------------------------------------------------------------------

  /** evenCropFrames' rule for one side: an odd length loses its last pixel. */
  function EvenDimension(n: nat): (r: nat)
    ensures r % 2 == 0 && r <= n && n - r <= 1
    ensures n % 2 == 0 <==> r == n
  {
    if n % 2 == 0 then n else n - 1
  }

  /**
   * evenCropFrames for one image: Ok(None) when both sides are even and the
   * image is left alone, Ok(Some(size)) for the cropped size, and an error
   * when a crop is needed but a side of at most one pixel would leave it
   * empty, which getSubimage rejects with an exception.
   */
  function CropSize(width: nat, height: nat): (r: Result<Option<(nat, nat)>>)
    ensures r.Err? <==> (width % 2 == 1 || height % 2 == 1) && (width <= 1 || height <= 1)
    ensures r.Ok? ==> (r.value.None? <==> width % 2 == 0 && height % 2 == 0)
    ensures r.Ok? && r.value.Some? ==>
              0 < r.value.value.0 && 0 < r.value.value.1
              && r.value.value.0 % 2 == 0 && r.value.value.1 % 2 == 0
              && width - 1 <= r.value.value.0 <= width && height - 1 <= r.value.value.1 <= height
  {
    var w := EvenDimension(width);
    var h := EvenDimension(height);
    if w == width && h == height then Ok(None)
    else if w == 0 || h == 0 then Err("getSubimage: empty crop")
    else Ok(Some((w, h)))
  }

  /** Cropping is needed at most once: a cropped size needs no further cropping. */
  lemma CropSizeIdempotent(width: nat, height: nat)
    requires CropSize(width, height).Ok? && CropSize(width, height).value.Some?
    ensures var (w, h) := CropSize(width, height).value.value; CropSize(w, h) == Ok(None)
  {
  }

  /** The size a frame has once evenCropFrames is through with it. */
  function SizeAfterCrop(size: (nat, nat)): (nat, nat)
    requires CropSize(size.0, size.1).Ok?
  {
    match CropSize(size.0, size.1).value
    case None => size
    case Some(cropped) => cropped
  }

  /** Every frame can be cropped: no side of one pixel. */
  predicate AllCroppable(sizes: seq<(nat, nat)>)
  {
    forall i :: 0 <= i < |sizes| ==> CropSize(sizes[i].0, sizes[i].1).Ok?
  }

  /**
   * evenCropFrames over the frames in directory order: each frame is cropped
   * in turn, and the first frame that cannot be cropped ends the walk with
   * its error, the earlier frames already rewritten.
   */
  method EvenCropFrames(sizes: seq<(nat, nat)>) returns (r: Result<seq<(nat, nat)>>)
    ensures r.Ok? <==> AllCroppable(sizes)
    ensures r.Ok? ==> |r.value| == |sizes|
                      && forall i :: 0 <= i < |sizes| ==> r.value[i] == SizeAfterCrop(sizes[i])
    ensures r.Ok? ==> forall i :: 0 <= i < |sizes| ==> r.value[i].0 % 2 == 0 && r.value[i].1 % 2 == 0
  {
    var done: seq<(nat, nat)> := [];
    var k := 0;
    while k < |sizes|
      invariant 0 <= k <= |sizes| && |done| == k
      invariant forall i :: 0 <= i < k ==> CropSize(sizes[i].0, sizes[i].1).Ok?
      invariant forall i :: 0 <= i < k ==> done[i] == SizeAfterCrop(sizes[i])
    {
      var outcome := CropSize(sizes[k].0, sizes[k].1);
      if outcome.Err? {
        return Err(outcome.message);
      }
      done := done + [SizeAfterCrop(sizes[k])];
      k := k + 1;
    }
    r := Ok(done);
  }

  // ---------------------------------------------------------------------
  // Finding a page target
  // ---------------------------------------------------------------------

  predicate IsPageIgnoringCase(t: TargetInfo)
  {
    EqualsIgnoreCase(t.kind, "page")
  }

  /** getAnyTopPageTargetId: the first target whose type is "page" in any case. */
  function GetAnyTopPageTargetId(targets: seq<TargetInfo>): Result<string>
  {
    if targets == [] then Err("No page target found")
    else if IsPageIgnoringCase(targets[0]) then Ok(targets[0].id)
    else GetAnyTopPageTargetId(targets[1..])
  }

  /** The id found is that of a page target with none before it. */
  lemma {:induction false} GetAnyTopPageTargetIdFound(targets: seq<TargetInfo>)
    requires GetAnyTopPageTargetId(targets).Ok?
    ensures exists i :: 0 <= i < |targets| && IsPageIgnoringCase(targets[i])
                        && targets[i].id == GetAnyTopPageTargetId(targets).value
                        && forall j :: 0 <= j < i ==> !IsPageIgnoringCase(targets[j])
  {
    if !IsPageIgnoringCase(targets[0]) {
      var rest := targets[1..];
      GetAnyTopPageTargetIdFound(rest);
      var i :| 0 <= i < |rest| && IsPageIgnoringCase(rest[i]) && rest[i].id == GetAnyTopPageTargetId(rest).value
               && forall j :: 0 <= j < i ==> !IsPageIgnoringCase(rest[j]);
      assert targets[i + 1] == rest[i];
      assert forall j :: 1 <= j < i + 1 ==> targets[j] == rest[j - 1];
    }
  }

  /** The search fails exactly when the list holds no page target. */
  lemma {:induction false} GetAnyTopPageTargetIdFails(targets: seq<TargetInfo>)
    ensures GetAnyTopPageTargetId(targets).Err? <==> forall j :: 0 <= j < |targets| ==> !IsPageIgnoringCase(targets[j])
  {
    if targets != [] && !IsPageIgnoringCase(targets[0]) {
      GetAnyTopPageTargetIdFails(targets[1..]);
      assert forall j :: 1 <= j < |targets| ==> targets[j] == targets[1..][j - 1];
    }
  }

  // ---------------------------------------------------------------------
  // Generating the video
  // ---------------------------------------------------------------------

  /** The encoder command: the numbered frames at the speed's frame rate, padded to even sizes, libx264. */
  function VideoCommand(ffmpegPath: string, speed: VideoSpeed, inputPattern: string, outputPath: string,
                        osName: string): (r: seq<string>)
    ensures |r| == 13 && r[0] == ffmpegPath && r[2] == "-framerate" && r[3] == FrameRateText(speed)
    ensures Some(r[5]) == TestBase.NormalizePath(Some(inputPattern), osName)
    ensures Some(r[12]) == TestBase.NormalizePath(Some(outputPath), osName)
  {
    var input := TestBase.NormalizePath(Some(inputPattern), osName).value;
    var output := TestBase.NormalizePath(Some(outputPath), osName).value;
    [ffmpegPath, "-y", "-framerate", FrameRateText(speed), "-i", input,
     "-vf", "pad=ceil(iw/2)*2:ceil(ih/2)*2,format=yuv420p", "-c:v", "libx264", "-pix_fmt", "yuv420p", output]
  }

  /**
   * stopRecordingAndGenerateVideo's outcome: no first frame aborts before
   * the encoder runs; a non-zero exit code or a missing video file fails;
   * otherwise the command that produced the video.
   */
  function GenerateVideo(frameSizes: seq<(nat, nat)>, firstFrameSaved: bool, exitCode: int, videoExists: bool,
                         ffmpegPath: string, speed: VideoSpeed, inputPattern: string, outputPath: string,
                         osName: string)
    : (r: Result<seq<string>>)
    ensures r.Ok? <==> AllCroppable(frameSizes) && firstFrameSaved && exitCode == 0 && videoExists
    ensures !AllCroppable(frameSizes) ==> r.Err? && r.message == "getSubimage: empty crop"
    ensures r.Ok? ==> r.value == VideoCommand(ffmpegPath, speed, inputPattern, outputPath, osName)
  {
    if !AllCroppable(frameSizes) then Err("getSubimage: empty crop")
    else if !firstFrameSaved then Err("No frames saved. Video generation aborted.")
    else if exitCode != 0 then Err("FFmpeg failed with exit code " + IntToString(exitCode) + " – check output above.")
    else if !videoExists then Err("Video file was not created: " + TestBase.NormalizePath(Some(outputPath), osName).value)
    else Ok(VideoCommand(ffmpegPath, speed, inputPattern, outputPath, osName))
  }

  /** String.valueOf for any int: a minus sign before the digits of a negative number. */
  function IntToString(n: int): string
  {
    if n < 0 then "-" + NatToString(-n) else NatToString(n)
  }

  // ---------------------------------------------------------------------
  // The recorder
  // ---------------------------------------------------------------------

  /** How far binding a target gets: the step that throws, if any. */
  datatype BindOutcome = SessionFails | PageEnableFails | ListenerFails | ScreencastFails | Succeeds

  /** What the browser does when a target is bound: the session it creates and how far binding gets. */
  datatype BindIo = BindIo(session: Handle, outcome: BindOutcome)

  /** The sessions map after binding a target: every outcome but a failed session creation stores the session. */
  function BoundSessions(sessions: map<string, Handle>, targetId: string, io: BindIo): (r: map<string, Handle>)
    ensures r.Keys == if io.outcome == SessionFails then sessions.Keys else sessions.Keys + {targetId}
  {
    if io.outcome == SessionFails then sessions else sessions[targetId := io.session]
  }

  /** The listener set after binding a target: registered once the page was enabled. */
  function BoundListeners(listeners: set<string>, targetId: string, io: BindIo): (r: set<string>)
    ensures targetId in r <==> targetId in listeners || io.outcome !in {SessionFails, PageEnableFails}
  {
    if io.outcome in {SessionFails, PageEnableFails} then listeners else listeners + {targetId}
  }

  class SpeedControlRecorder {
    var videoSpeed: VideoSpeed
    var captureIntervalMs: int
    /** The instrumentation session of each bound target. */
    var targetDevToolsMap: map<string, Handle>
    /** The targets with a frame listener registered. */
    var targetListeners: set<string>
    var lastCreatedPageTargetId: Option<string>
    var currentRecordedTargetId: Option<string>
    var autoRebindEnabled: bool
    /** The target the timed-capture task was set up for, while that task runs. */
    var timedCaptureTarget: Option<string>

    /** Every target with a listener has a session, and the recorded target has a listener. */
    ghost predicate Valid()
      reads this
    {
      targetListeners <= targetDevToolsMap.Keys
      && (currentRecordedTargetId.Some? ==> currentRecordedTargetId.value in targetListeners)
    }

    /** The timed-capture task pokes the page only while its target is the recorded one. */
    predicate TimerTriggers()
      reads this
    {
      timedCaptureTarget.Some? && timedCaptureTarget == currentRecordedTargetId
    }

    constructor ()
      ensures Valid()
      ensures videoSpeed == DefaultSpeed && captureIntervalMs == DefaultCaptureIntervalMs
      ensures targetDevToolsMap == map[] && targetListeners == {}
      ensures lastCreatedPageTargetId == None && currentRecordedTargetId == None
      ensures !autoRebindEnabled && timedCaptureTarget == None
    {
      videoSpeed := DefaultSpeed;
      captureIntervalMs := DefaultCaptureIntervalMs;
      targetDevToolsMap := map[];
      targetListeners := {};
      lastCreatedPageTargetId := None;
      currentRecordedTargetId := None;
      autoRebindEnabled := false;
      timedCaptureTarget := None;
    }

    method SetVideoSpeed(speed: VideoSpeed)
      modifies this
      ensures videoSpeed == speed
      ensures captureIntervalMs == old(captureIntervalMs) && autoRebindEnabled == old(autoRebindEnabled)
      ensures targetDevToolsMap == old(targetDevToolsMap) && targetListeners == old(targetListeners)
      ensures currentRecordedTargetId == old(currentRecordedTargetId) && lastCreatedPageTargetId == old(lastCreatedPageTargetId)
      ensures timedCaptureTarget == old(timedCaptureTarget)
    {
      videoSpeed := speed;
    }

    method SetCaptureInterval(intervalMs: int)
      modifies this
      ensures captureIntervalMs == intervalMs
      ensures videoSpeed == old(videoSpeed) && autoRebindEnabled == old(autoRebindEnabled)
      ensures targetDevToolsMap == old(targetDevToolsMap) && targetListeners == old(targetListeners)
      ensures currentRecordedTargetId == old(currentRecordedTargetId) && lastCreatedPageTargetId == old(lastCreatedPageTargetId)
      ensures timedCaptureTarget == old(timedCaptureTarget)
    {
      captureIntervalMs := intervalMs;
    }

    method SetAutoRebindEnabled(enabled: bool)
      modifies this
      ensures autoRebindEnabled == enabled
      ensures videoSpeed == old(videoSpeed) && captureIntervalMs == old(captureIntervalMs)
      ensures targetDevToolsMap == old(targetDevToolsMap) && targetListeners == old(targetListeners)
      ensures currentRecordedTargetId == old(currentRecordedTargetId) && lastCreatedPageTargetId == old(lastCreatedPageTargetId)
      ensures timedCaptureTarget == old(timedCaptureTarget)
    {
      autoRebindEnabled := enabled;
    }

    /**
     * bindAndStart: create a session and store it, enable the page, register
     * the frame listener, start the screencast, move the timed capture to
     * this target, and only then make it the recorded target. A step that
     * throws leaves what earlier steps stored and fails the bind.
     */
    method BindAndStart(targetId: string, io: BindIo) returns (r: Result<()>)
      requires Valid()
      modifies this
      ensures Valid()
      ensures r.Ok? <==> io.outcome == Succeeds
      ensures r.Ok? ==> currentRecordedTargetId == Some(targetId) && timedCaptureTarget == Some(targetId) && TimerTriggers()
      ensures r.Err? ==> r.message == "Failed to start recording on target " + targetId
                         && currentRecordedTargetId == old(currentRecordedTargetId)
                         && timedCaptureTarget == old(timedCaptureTarget)
      ensures targetDevToolsMap == BoundSessions(old(targetDevToolsMap), targetId, io)
      ensures targetListeners == BoundListeners(old(targetListeners), targetId, io)
      ensures videoSpeed == old(videoSpeed) && captureIntervalMs == old(captureIntervalMs)
      ensures autoRebindEnabled == old(autoRebindEnabled) && lastCreatedPageTargetId == old(lastCreatedPageTargetId)
    {
      r := Err("Failed to start recording on target " + targetId);
      if io.outcome == SessionFails {
        return;
      }
      targetDevToolsMap := targetDevToolsMap[targetId := io.session];
      if io.outcome == PageEnableFails {
        return;
      }
      targetListeners := targetListeners + {targetId};
      if io.outcome == ListenerFails || io.outcome == ScreencastFails {
        return;
      }
      timedCaptureTarget := Some(targetId);
      currentRecordedTargetId := Some(targetId);
      r := Ok(());
    }

    /**
     * stopRecordingOnTarget: the screencast is stopped and the listeners
     * cleared on the target's session (failures only logged); the recorded
     * target is cleared exactly when it is this one. The session stays.
     */
    method StopRecordingOnTarget(targetId: string)
      requires Valid()
      modifies this
      ensures Valid()
      ensures currentRecordedTargetId == if old(currentRecordedTargetId) == Some(targetId) then None
                                         else old(currentRecordedTargetId)
      ensures old(currentRecordedTargetId) == Some(targetId) ==> !TimerTriggers()
      ensures targetDevToolsMap == old(targetDevToolsMap) && targetListeners == old(targetListeners)
      ensures timedCaptureTarget == old(timedCaptureTarget)
      ensures videoSpeed == old(videoSpeed) && captureIntervalMs == old(captureIntervalMs)
      ensures autoRebindEnabled == old(autoRebindEnabled) && lastCreatedPageTargetId == old(lastCreatedPageTargetId)
    {
      if currentRecordedTargetId == Some(targetId) {
        currentRecordedTargetId := None;
      }
    }

    /** cleanupTarget (the target-destroyed listener): stop the target and forget its session and listener. */
    method CleanupTarget(targetId: string)
      requires Valid()
      modifies this
      ensures Valid()
      ensures targetDevToolsMap == old(targetDevToolsMap) - {targetId}
      ensures targetListeners == old(targetListeners) - {targetId}
      ensures currentRecordedTargetId == if old(currentRecordedTargetId) == Some(targetId) then None
                                         else old(currentRecordedTargetId)
      ensures timedCaptureTarget == old(timedCaptureTarget)
      ensures videoSpeed == old(videoSpeed) && captureIntervalMs == old(captureIntervalMs)
      ensures autoRebindEnabled == old(autoRebindEnabled) && lastCreatedPageTargetId == old(lastCreatedPageTargetId)
    {
      StopRecordingOnTarget(targetId);
      targetDevToolsMap := targetDevToolsMap - {targetId};
      targetListeners := targetListeners - {targetId};
    }

    /**
     * The target-created listener. Non-page targets are ignored. A page
     * target becomes the last created one; with auto-rebind on, a recorded
     * target that is another one is stopped and the new one bound (a
     * failed bind is only logged, leaving nothing recorded).
     */
    method OnTargetCreated(info: TargetInfo, io: BindIo) returns (rebound: bool)
      requires Valid()
      modifies this
      ensures Valid()
      ensures !EqualsIgnoreCase(info.kind, "page") ==>
                !rebound && lastCreatedPageTargetId == old(lastCreatedPageTargetId)
                && currentRecordedTargetId == old(currentRecordedTargetId)
                && targetDevToolsMap == old(targetDevToolsMap) && targetListeners == old(targetListeners)
                && timedCaptureTarget == old(timedCaptureTarget)
      ensures EqualsIgnoreCase(info.kind, "page") ==> lastCreatedPageTargetId == Some(info.id)
      ensures rebound <==> EqualsIgnoreCase(info.kind, "page") && autoRebindEnabled
                           && old(currentRecordedTargetId).Some? && old(currentRecordedTargetId) != Some(info.id)
      ensures !rebound ==> currentRecordedTargetId == old(currentRecordedTargetId)
                           && targetDevToolsMap == old(targetDevToolsMap) && targetListeners == old(targetListeners)
                           && timedCaptureTarget == old(timedCaptureTarget)
      ensures rebound ==> (currentRecordedTargetId == Some(info.id) <==> io.outcome == Succeeds)
                          && (currentRecordedTargetId == None <==> io.outcome != Succeeds)
                          && targetDevToolsMap == BoundSessions(old(targetDevToolsMap), info.id, io)
                          && targetListeners == BoundListeners(old(targetListeners), info.id, io)
                          && timedCaptureTarget == (if io.outcome == Succeeds then Some(info.id)
                                                    else old(timedCaptureTarget))
      ensures videoSpeed == old(videoSpeed) && captureIntervalMs == old(captureIntervalMs)
      ensures autoRebindEnabled == old(autoRebindEnabled)
    {
      rebound := false;
      if !EqualsIgnoreCase(info.kind, "page") {
        return;
      }
      lastCreatedPageTargetId := Some(info.id);
      if autoRebindEnabled {
        var current := currentRecordedTargetId;
        if current.Some? && current.value != info.id {
          rebound := true;
          StopRecordingOnTarget(current.value);
          var _ := BindAndStart(info.id, io);
        }
      }
    }

    /**
     * recordNewlyOpenedTab: fails when no page target has been created;
     * otherwise stops the recorded target, if any, and binds the last
     * created one. When the bind fails nothing is recorded any more.
     */
    method RecordNewlyOpenedTab(io: BindIo) returns (r: Result<()>)
      requires Valid()
      modifies this
      ensures Valid()
      ensures old(lastCreatedPageTargetId).None? ==>
                r == Err("No newly created page targetId captured. Did you call window.open() first?")
                && currentRecordedTargetId == old(currentRecordedTargetId)
                && targetDevToolsMap == old(targetDevToolsMap) && targetListeners == old(targetListeners)
      ensures old(lastCreatedPageTargetId).Some? ==>
                (r.Ok? <==> io.outcome == Succeeds)
                && (r.Ok? ==> currentRecordedTargetId == old(lastCreatedPageTargetId))
                && (r.Err? ==> currentRecordedTargetId == None)
                && targetDevToolsMap == BoundSessions(old(targetDevToolsMap), old(lastCreatedPageTargetId).value, io)
                && targetListeners == BoundListeners(old(targetListeners), old(lastCreatedPageTargetId).value, io)
                && timedCaptureTarget == (if r.Ok? then old(lastCreatedPageTargetId) else old(timedCaptureTarget))
      ensures old(lastCreatedPageTargetId).None? ==> timedCaptureTarget == old(timedCaptureTarget)
      ensures lastCreatedPageTargetId == old(lastCreatedPageTargetId)
      ensures videoSpeed == old(videoSpeed) && captureIntervalMs == old(captureIntervalMs)
      ensures autoRebindEnabled == old(autoRebindEnabled)
    {
      var targetId := lastCreatedPageTargetId;
      if targetId.None? {
        return Err("No newly created page targetId captured. Did you call window.open() first?");
      }
      var current := currentRecordedTargetId;
      if current.Some? {
        StopRecordingOnTarget(current.value);
      }
      r := BindAndStart(targetId.value, io);
    }

    /** startRecording: bind the first page target; fails when the browser lists none. */
    method StartRecording(targets: seq<TargetInfo>, io: BindIo) returns (r: Result<()>)
      requires Valid()
      modifies this
      ensures Valid()
      ensures GetAnyTopPageTargetId(targets).Err? ==>
                r == Err(GetAnyTopPageTargetId(targets).message)
                && currentRecordedTargetId == old(currentRecordedTargetId)
                && targetDevToolsMap == old(targetDevToolsMap) && targetListeners == old(targetListeners)
      ensures GetAnyTopPageTargetId(targets).Ok? ==>
                (r.Ok? <==> io.outcome == Succeeds)
                && (r.Ok? ==> currentRecordedTargetId == Some(GetAnyTopPageTargetId(targets).value))
                && (r.Err? ==> currentRecordedTargetId == old(currentRecordedTargetId))
                && targetDevToolsMap == BoundSessions(old(targetDevToolsMap), GetAnyTopPageTargetId(targets).value, io)
                && targetListeners == BoundListeners(old(targetListeners), GetAnyTopPageTargetId(targets).value, io)
                && timedCaptureTarget == (if r.Ok? then Some(GetAnyTopPageTargetId(targets).value)
                                          else old(timedCaptureTarget))
      ensures GetAnyTopPageTargetId(targets).Err? ==> timedCaptureTarget == old(timedCaptureTarget)
      ensures lastCreatedPageTargetId == old(lastCreatedPageTargetId)
      ensures videoSpeed == old(videoSpeed) && captureIntervalMs == old(captureIntervalMs)
      ensures autoRebindEnabled == old(autoRebindEnabled)
    {
      var target := GetAnyTopPageTargetId(targets);
      if target.Err? {
        return Err(target.message);
      }
      r := BindAndStart(target.value, io);
    }

    /**
     * cleanup: the timed capture is stopped, every bound target is stopped
     * (so the recorded one, if bound, is cleared), and both maps are
     * emptied.
     */
    method Cleanup()
      requires Valid()
      modifies this
      ensures Valid()
      ensures targetDevToolsMap == map[] && targetListeners == {} && timedCaptureTarget == None
      ensures currentRecordedTargetId == None
      ensures videoSpeed == old(videoSpeed) && captureIntervalMs == old(captureIntervalMs)
      ensures autoRebindEnabled == old(autoRebindEnabled) && lastCreatedPageTargetId == old(lastCreatedPageTargetId)
    {
      timedCaptureTarget := None;
      var keys := targetDevToolsMap.Keys;
      while keys != {}
        invariant Valid()
        invariant targetDevToolsMap == old(targetDevToolsMap) && targetListeners == old(targetListeners)
        invariant keys <= targetDevToolsMap.Keys
        invariant currentRecordedTargetId.Some? ==> currentRecordedTargetId.value in keys
        invariant timedCaptureTarget == None
        invariant videoSpeed == old(videoSpeed) && captureIntervalMs == old(captureIntervalMs)
        invariant autoRebindEnabled == old(autoRebindEnabled) && lastCreatedPageTargetId == old(lastCreatedPageTargetId)
        decreases keys
      {
        var t :| t in keys;
        StopRecordingOnTarget(t);
        keys := keys - {t};
      }
      targetDevToolsMap := map[];
      targetListeners := {};
    }
  }
}
