/**
 * VideoRecordTabClosureFix: a recorder that follows the browser from tab to
 * tab. It keeps one instrumentation session per target, a per-target
 * "recording" flag and frame count, and the id of the target being
 * recorded. Opening a page tab moves the recording there; closing the
 * recorded tab cleans it up and moves the recording to another page tab or
 * back to the main window; a failed move triggers a recovery that tries
 * again.
 *
 * The browser is outside the model. The target list it reports, the URL of
 * the main window, and the outcome of every attempt to start a screencast
 * are parameters. The recovery path of the recorder retries without bound;
 * here the attempts are a finite sequence of outcomes, and running out of
 * them ends the model's run (flagged as `exhausted`).
 */
module TabClosureFix {
  import opened Common
  import TestBase

  // ---------------------------------------------------------------------
  // Searching the target list
  // ---------------------------------------------------------------------

  predicate IsPage(t: TargetInfo) { t.kind == "page" }

  /** Which page targets a search accepts. */
  datatype Selector =
    | OtherThan(exclude: Option<string>)  // a page whose id is not the one being recorded
    | WithUrl(url: string)                // a page showing the given URL
    | AnyPage

  predicate Selects(sel: Selector, t: TargetInfo)
  {
    IsPage(t) &&
    match sel
    case OtherThan(exclude) => exclude != Some(t.id)
    case WithUrl(url) => t.url == url
    case AnyPage => true
  }

  /** The index of the first target at or after `k` that `sel` accepts. */
  function FirstFrom(ts: seq<TargetInfo>, sel: Selector, k: nat): (r: Option<nat>)
    ensures r.Some? ==> k <= r.value < |ts| && Selects(sel, ts[r.value])
    decreases |ts| - k
  {
    if k >= |ts| then None
    else if Selects(sel, ts[k]) then Some(k)
    else FirstFrom(ts, sel, k + 1)
  }

  /** FirstFrom finds the earliest accepted target, and finds none only when there is none. */
  lemma {:induction false} FirstFromMeaning(ts: seq<TargetInfo>, sel: Selector, k: nat)
    ensures var r := FirstFrom(ts, sel, k);
            (r.Some? ==> forall j :: k <= j < r.value ==> !Selects(sel, ts[j]))
            && (r.None? ==> forall j :: k <= j < |ts| ==> !Selects(sel, ts[j]))
    decreases |ts| - k
  {
    if k < |ts| && !Selects(sel, ts[k]) {
      FirstFromMeaning(ts, sel, k + 1);
    }
  }

  /** The id of the first accepted target; None when the list could not be fetched or none is accepted. */
  function FirstId(targets: Option<seq<TargetInfo>>, sel: Selector): Option<string>
  {
    if targets.None? then None
    else match FirstFrom(targets.value, sel, 0)
      case None => None
      case Some(i) => Some(targets.value[i].id)
  }

  /** `id` is the id of a page target in the reported list. */
  predicate Listed(targets: Option<seq<TargetInfo>>, id: string)
  {
    targets.Some? && exists i :: 0 <= i < |targets.value| && IsPage(targets.value[i]) && targets.value[i].id == id
  }

  lemma FirstIdListed(targets: Option<seq<TargetInfo>>, sel: Selector)
    ensures FirstId(targets, sel).Some? ==> Listed(targets, FirstId(targets, sel).value)
  {
    if FirstId(targets, sel).Some? {
      var i := FirstFrom(targets.value, sel, 0).value;
      assert IsPage(targets.value[i]) && targets.value[i].id == FirstId(targets, sel).value;
    }
  }

  /** findNextAvailableTarget: the first page target that is not the one being recorded. */
  function NextAvailable(targets: Option<seq<TargetInfo>>, current: Option<string>): Option<string>
  {
    FirstId(targets, OtherThan(current))
  }

  /**
   * getCurrentTargetId: the first page target showing `url`, else the first
   * page target, else none.
   */
  function CurrentTarget(targets: Option<seq<TargetInfo>>, url: string): Option<string>
  {
    var byUrl := FirstId(targets, WithUrl(url));
    if byUrl.Some? then byUrl else FirstId(targets, AnyPage)
  }

  /**
   * The next available target is a page target other than the recorded one
   * with no such target before it, and there is none only when no page
   * target other than the recorded one is listed.
   */
  lemma NextAvailableMeaning(targets: Option<seq<TargetInfo>>, current: Option<string>)
    requires targets.Some?
    ensures var ts := targets.value; var r := NextAvailable(targets, current);
            (r.Some? ==> exists i :: 0 <= i < |ts| && ts[i].id == r.value && IsPage(ts[i]) && current != Some(ts[i].id)
                                   && forall j :: 0 <= j < i ==> !(IsPage(ts[j]) && current != Some(ts[j].id)))
            && (r.None? ==> forall j :: 0 <= j < |ts| ==> !(IsPage(ts[j]) && current != Some(ts[j].id)))
  {
    var ts := targets.value;
    FirstFromMeaning(ts, OtherThan(current), 0);
    var f := FirstFrom(ts, OtherThan(current), 0);
    if f.Some? {
      var i := f.value;
      assert forall j :: 0 <= j < i ==> !Selects(OtherThan(current), ts[j]);
    } else {
      assert forall j :: 0 <= j < |ts| ==> !Selects(OtherThan(current), ts[j]);
    }
  }

  /**
   * getCurrentTargetId prefers a page showing the URL; it falls back to the
   * first page only when no page shows it, and finds nothing only when no
   * page target is listed.
   */
  lemma CurrentTargetMeaning(targets: Option<seq<TargetInfo>>, url: string)
    requires targets.Some?
    ensures var ts := targets.value; var r := CurrentTarget(targets, url);
            ((exists i :: 0 <= i < |ts| && IsPage(ts[i]) && ts[i].url == url) ==>
               exists i :: 0 <= i < |ts| && IsPage(ts[i]) && ts[i].url == url && r == Some(ts[i].id)
                           && forall j :: 0 <= j < i ==> !(IsPage(ts[j]) && ts[j].url == url))
            && ((forall i :: 0 <= i < |ts| ==> !(IsPage(ts[i]) && ts[i].url == url)) && r.Some? ==>
                  exists i :: 0 <= i < |ts| && IsPage(ts[i]) && r == Some(ts[i].id)
                              && forall j :: 0 <= j < i ==> !IsPage(ts[j]))
            && (r.None? <==> forall j :: 0 <= j < |ts| ==> !IsPage(ts[j]))
  {
    var ts := targets.value;
    FirstFromMeaning(ts, WithUrl(url), 0);
    FirstFromMeaning(ts, AnyPage, 0);
    var byUrl := FirstFrom(ts, WithUrl(url), 0);
    if byUrl.Some? {
      var i := byUrl.value;
      assert forall j :: 0 <= j < i ==> !Selects(WithUrl(url), ts[j]);
    } else {
      assert forall j :: 0 <= j < |ts| ==> !Selects(WithUrl(url), ts[j]);
      var any := FirstFrom(ts, AnyPage, 0);
      if any.Some? {
        assert Selects(AnyPage, ts[any.value]);
        assert forall j :: 0 <= j < any.value ==> !Selects(AnyPage, ts[j]);
      } else {
        assert forall j :: 0 <= j < |ts| ==> !Selects(AnyPage, ts[j]);
      }
    }
  }

  /**
   * findNextAvailableTarget's loop: every page target other than the
   * recorded one is collected, and the first of them is chosen.
   */
  method FindNextAvailableTarget(targets: Option<seq<TargetInfo>>, current: Option<string>)
    returns (r: Option<string>)
    ensures r == NextAvailable(targets, current)
  {
    if targets.None? {
      return None;
    }
    var ts := targets.value;
    ghost var first := FirstFrom(ts, OtherThan(current), 0);
    var available: seq<string> := [];
    var i := 0;
    while i < |ts|
      invariant 0 <= i <= |ts|
      invariant available == [] ==> first == FirstFrom(ts, OtherThan(current), i)
      invariant available != [] ==> first.Some? && available[0] == ts[first.value].id
    {
      if IsPage(ts[i]) && current != Some(ts[i].id) {
        available := available + [ts[i].id];
      }
      i := i + 1;
    }
    if available != [] {
      r := Some(available[0]);
    } else {
      r := None;
    }
  }

  /** getCurrentTargetId's two scans: first by URL, then for any page. */
  method GetCurrentTargetId(targets: Option<seq<TargetInfo>>, url: string) returns (r: Option<string>)
    ensures r == CurrentTarget(targets, url)
  {
    if targets.None? {
      return None;
    }
    var ts := targets.value;
    ghost var byUrl := FirstFrom(ts, WithUrl(url), 0);
    var i := 0;
    while i < |ts|
      invariant 0 <= i <= |ts|
      invariant byUrl == FirstFrom(ts, WithUrl(url), i)
    {
      if IsPage(ts[i]) && url == ts[i].url {
        return Some(ts[i].id);
      }
      i := i + 1;
    }
    ghost var any := FirstFrom(ts, AnyPage, 0);
    i := 0;
    while i < |ts|
      invariant 0 <= i <= |ts|
      invariant any == FirstFrom(ts, AnyPage, i)
    {
      if IsPage(ts[i]) {
        return Some(ts[i].id);
      }
      i := i + 1;
    }
    return None;
  }

  // ---------------------------------------------------------------------
  // Per-target session state and its operations
  // ---------------------------------------------------------------------

  /**
   * The recorder's per-target maps (instrumentation session, recording
   * flag, frame count) and the id of the target being recorded.
   */
  datatype SessionState = SessionState(active: map<string, Handle>, recording: map<string, bool>,
                                       frames: map<string, nat>, current: Option<string>)

  /**
   * Every target counting frames has a session, and every target marked as
   * recording counts frames.
   */
  predicate WellFormed(st: SessionState)
  {
    st.frames.Keys <= st.active.Keys
    && forall t :: t in st.recording && st.recording[t] ==> t in st.frames
  }

  /** Two maps hold the same entry (or none) for `u`. */
  predicate Agree<V(==)>(m1: map<string, V>, m2: map<string, V>, u: string)
  {
    (u in m1 <==> u in m2) && (u in m1 ==> m1[u] == m2[u])
  }

  /** Two states hold the same entries for target `u`. */
  predicate SameAt(a: SessionState, b: SessionState, u: string)
  {
    Agree(a.active, b.active, u) && Agree(a.recording, b.recording, u) && Agree(a.frames, b.frames, u)
  }

  /** `t` is recording, with a session and a frame count. */
  predicate RecordingOn(st: SessionState, t: string)
  {
    t in st.active && t in st.recording && st.recording[t] && t in st.frames
  }

  /**
   * What the browser does when recording starts on a target: whether an
   * existing session still answers, the session a fresh creation yields
   * (None when it fails), and whether enabling the page and starting the
   * screencast succeed.
   */
  datatype StartIo = StartIo(existingValid: bool, created: Option<Handle>, streamOk: bool)

  datatype Started = Started(state: SessionState, ok: bool)

  /**
   * startRecordingOnTarget: reuse the target's session if it still answers,
   * else create one (a failed creation fails the start and changes
   * nothing); then start the screencast, and only when that succeeds mark
   * the target as recording with a fresh count of zero frames.
   */
  function Start(st: SessionState, t: string, io: StartIo): (r: Started)
    ensures r.ok <==> ((t in st.active && io.existingValid) || io.created.Some?) && io.streamOk
    ensures r.ok ==> RecordingOn(r.state, t) && r.state.frames[t] == 0
    ensures !r.ok ==> r.state.recording == st.recording && r.state.frames == st.frames
    ensures t in st.active ==> t in r.state.active
    ensures r.state.current == st.current
    ensures forall u :: u != t ==> SameAt(st, r.state, u)
    ensures WellFormed(st) ==> WellFormed(r.state)
  {
    var reuse := t in st.active && io.existingValid;
    if !reuse && io.created.None? then Started(st, false)
    else
      var active := if reuse then st.active else st.active[t := io.created.value];
      if !io.streamOk then Started(st.(active := active), false)
      else Started(st.(active := active, recording := st.recording[t := true], frames := st.frames[t := 0]), true)
  }

  /** stopRecordingOnTarget: the target is marked as not recording, whether or not it had a session. */
  function Stop(st: SessionState, t: string): (r: SessionState)
    ensures t in r.recording && !r.recording[t]
    ensures r.active == st.active && r.frames == st.frames && r.current == st.current
    ensures forall u :: u != t ==> SameAt(st, r, u)
    ensures WellFormed(st) ==> WellFormed(r)
  {
    st.(recording := st.recording[t := false])
  }

  /**
   * cleanupSessionForTarget: stop the target if it is recording, close its
   * session, and drop all three of its entries.
   */
  function Cleanup(st: SessionState, t: string): (r: SessionState)
    ensures t !in r.active && t !in r.recording && t !in r.frames
    ensures r.current == st.current
    ensures forall u :: u != t ==> SameAt(st, r, u)
    ensures WellFormed(st) ==> WellFormed(r)
  {
    var stopped := if t in st.recording && st.recording[t] then Stop(st, t) else st;
    SessionState(stopped.active - {t}, stopped.recording - {t}, stopped.frames - {t}, stopped.current)
  }

  // ---------------------------------------------------------------------
  // Switching and recovery
  // ---------------------------------------------------------------------

  /**
   * The browser as the switching logic sees it: the reported target list
   * (None when it cannot be fetched), whether a window is still open, and
   * the URL the driver shows after switching to the first window.
   */
  datatype Env = Env(targets: Option<seq<TargetInfo>>, windowsOpen: bool, mainWindowUrl: string)

  /** The state after a switch, and whether the model ran out of start outcomes. */
  datatype Switched = Switched(state: SessionState, exhausted: bool)

  /**
   * switchRecordingToTarget: stop the recorded target if it is another one,
   * start on `t`, and only then record `t` as the current target; a failed
   * start goes into recovery. Each start consumes one outcome of `ios`.
   */
  function SwitchTo(st: SessionState, t: string, env: Env, ios: seq<StartIo>): Switched
    decreases |ios|, 0
  {
    if ios == [] then Switched(st, true)
    else
      var started := Attempt(st, t, ios[0]);
      if started.ok then Switched(started.state.(current := Some(t)), false)
      else Recover(started.state, env, ios[1..])
  }

  /**
   * One attempt of switchRecordingToTarget: stop the recorded target if it
   * is another one, then start on `t`. The current target is not changed
   * here, and only `t` and the recorded target are touched.
   */
  function Attempt(st: SessionState, t: string, io: StartIo): (r: Started)
    ensures r.ok <==> ((t in st.active && io.existingValid) || io.created.Some?) && io.streamOk
    ensures r.ok ==> RecordingOn(r.state, t) && r.state.frames[t] == 0
    ensures r.ok && st.current.Some? && st.current.value != t ==>
              st.current.value in r.state.recording && !r.state.recording[st.current.value]
    ensures r.state.current == st.current
    ensures forall u :: u != t ==> Untouched(st, r.state, u)
    ensures WellFormed(st) ==> WellFormed(r.state)
  {
    var stopped := if st.current.Some? && st.current.value != t then Stop(st, st.current.value) else st;
    Start(stopped, t, io)
  }

  /** attemptRecordingRecovery: switch to the next available target, else to the main window's target. */
  function Recover(st: SessionState, env: Env, ios: seq<StartIo>): Switched
    decreases |ios|, 2
  {
    var next := NextAvailable(env.targets, st.current);
    if next.Some? then SwitchTo(st, next.value, env, ios) else SwitchToMain(st, env, ios)
  }

  /**
   * switchRecordingToMainTarget: with a window open, switch to the target
   * of the first window (by its URL); otherwise, or when no target is
   * found, leave everything as it is.
   */
  function SwitchToMain(st: SessionState, env: Env, ios: seq<StartIo>): Switched
    decreases |ios|, 1
  {
    if !env.windowsOpen then Switched(st, false)
    else
      var main := CurrentTarget(env.targets, env.mainWindowUrl);
      if main.None? then Switched(st, false) else SwitchTo(st, main.value, env, ios)
  }

  /**
   * What every switch guarantees about the recorder's state: well-formedness
   * is kept; the current target either stays or becomes a target that is
   * recording from frame zero; running out of outcomes leaves it unchanged;
   * and a target that stops being current has been stopped.
   */
  ghost predicate SwitchKeeps(st: SessionState, r: Switched)
  {
    (WellFormed(st) ==> WellFormed(r.state))
    && (r.state.current == st.current
        || (r.state.current.Some? && RecordingOn(r.state, r.state.current.value)
            && r.state.frames[r.state.current.value] == 0))
    && (r.exhausted ==> r.state.current == st.current)
    && (r.state.current != st.current && st.current.Some? ==>
          st.current.value in r.state.recording && !r.state.recording[st.current.value])
  }

  /**
   * A target a switch leaves alone keeps its session and frame count; its
   * recording flag is kept too, unless it was the current target, which
   * may have been stopped.
   */
  ghost predicate Untouched(st: SessionState, r: SessionState, u: string)
  {
    Agree(st.active, r.active, u) && Agree(st.frames, r.frames, u)
    && (Agree(st.recording, r.recording, u) || (st.current == Some(u) && u in r.recording && !r.recording[u]))
  }

  lemma {:induction false} SwitchToKeeps(st: SessionState, t: string, env: Env, ios: seq<StartIo>)
    ensures SwitchKeeps(st, SwitchTo(st, t, env, ios))
    decreases |ios|, 0
  {
    if ios != [] {
      var started := Attempt(st, t, ios[0]);
      if !started.ok {
        RecoverKeeps(started.state, env, ios[1..]);
        assert SwitchTo(st, t, env, ios) == Recover(started.state, env, ios[1..]);
      } else {
        assert SwitchTo(st, t, env, ios) == Switched(started.state.(current := Some(t)), false);
      }
    }
  }

  lemma {:induction false} RecoverKeeps(st: SessionState, env: Env, ios: seq<StartIo>)
    ensures SwitchKeeps(st, Recover(st, env, ios))
    decreases |ios|, 2
  {
    var next := NextAvailable(env.targets, st.current);
    if next.Some? {
      SwitchToKeeps(st, next.value, env, ios);
    } else {
      SwitchToMainKeeps(st, env, ios);
    }
  }

  lemma {:induction false} SwitchToMainKeeps(st: SessionState, env: Env, ios: seq<StartIo>)
    ensures SwitchKeeps(st, SwitchToMain(st, env, ios))
    decreases |ios|, 1
  {
    if env.windowsOpen {
      var main := CurrentTarget(env.targets, env.mainWindowUrl);
      if main.Some? {
        SwitchToKeeps(st, main.value, env, ios);
      }
    }
  }

  lemma UntouchedTrans(a: SessionState, b: SessionState, c: SessionState, u: string)
    requires a.current == b.current
    requires Untouched(a, b, u) && Untouched(b, c, u)
    ensures Untouched(a, c, u)
  {
  }

  /** A switch to `t` leaves every target that is neither `t` nor a listed page untouched. */
  lemma {:induction false} SwitchToUntouched(st: SessionState, t: string, env: Env, ios: seq<StartIo>)
    ensures forall u :: u != t && !Listed(env.targets, u) ==> Untouched(st, SwitchTo(st, t, env, ios).state, u)
    decreases |ios|, 0
  {
    if ios != [] {
      var started := Attempt(st, t, ios[0]);
      var r := if started.ok then started.state.(current := Some(t)) else Recover(started.state, env, ios[1..]).state;
      assert SwitchTo(st, t, env, ios).state == r;
      if !started.ok {
        RecoverUntouched(started.state, env, ios[1..]);
      }
      forall u | u != t && !Listed(env.targets, u)
        ensures Untouched(st, r, u)
      {
        assert Untouched(started.state, r, u);
        UntouchedTrans(st, started.state, r, u);
      }
    }
  }

  lemma {:induction false} RecoverUntouched(st: SessionState, env: Env, ios: seq<StartIo>)
    ensures forall u :: !Listed(env.targets, u) ==> Untouched(st, Recover(st, env, ios).state, u)
    decreases |ios|, 2
  {
    var next := NextAvailable(env.targets, st.current);
    if next.Some? {
      FirstIdListed(env.targets, OtherThan(st.current));
      SwitchToUntouched(st, next.value, env, ios);
    } else {
      SwitchToMainUntouched(st, env, ios);
    }
  }

  lemma {:induction false} SwitchToMainUntouched(st: SessionState, env: Env, ios: seq<StartIo>)
    ensures forall u :: !Listed(env.targets, u) ==> Untouched(st, SwitchToMain(st, env, ios).state, u)
    decreases |ios|, 1
  {
    if env.windowsOpen {
      var main := CurrentTarget(env.targets, env.mainWindowUrl);
      if main.Some? {
        FirstIdListed(env.targets, WithUrl(env.mainWindowUrl));
        FirstIdListed(env.targets, AnyPage);
        SwitchToUntouched(st, main.value, env, ios);
      }
    }
  }

  /** A switch whose first start succeeds lands on `t`, recording from frame zero. */
  lemma SwitchToFirstAttempt(st: SessionState, t: string, env: Env, io: StartIo, rest: seq<StartIo>)
    requires (t in st.active && io.existingValid) || io.created.Some?
    requires io.streamOk
    ensures var r := SwitchTo(st, t, env, [io] + rest);
            !r.exhausted && r.state.current == Some(t) && RecordingOn(r.state, t) && r.state.frames[t] == 0
  {
    var ios := [io] + rest;
    assert ios[0] == io;
  }

  /**
   * handleTargetDestroyed: closing the recorded tab cleans it up and then
   * runs the same steps as recovery (next available target, else the main
   * window); closing any other tab only cleans that tab up.
   */
  function TargetDestroyed(st: SessionState, id: string, env: Env, ios: seq<StartIo>): Switched
  {
    if st.current == Some(id) then Recover(Cleanup(st, id), env, ios)
    else Switched(Cleanup(st, id), false)
  }

  /**
   * Closing a tab that is not recorded drops exactly that tab's entries.
   * Closing the recorded tab (no longer listed by the browser) leaves it
   * with no session and no frame count; it may keep a "not recording" flag,
   * because switching away from it stops it again after the cleanup; and
   * either the recording has moved to a target recording from frame zero,
   * or the closed tab is still named as the current one.
   */
  lemma TargetDestroyedEffect(st: SessionState, id: string, env: Env, ios: seq<StartIo>)
    requires !Listed(env.targets, id)
    ensures var r := TargetDestroyed(st, id, env, ios).state;
            id !in r.active && id !in r.frames && (id in r.recording ==> !r.recording[id])
            && (WellFormed(st) ==> WellFormed(r))
            && (st.current != Some(id) ==> r.current == st.current && forall u :: u != id ==> SameAt(st, r, u))
            && (st.current == Some(id) ==>
                  r.current == Some(id) || (r.current.Some? && RecordingOn(r, r.current.value) && r.frames[r.current.value] == 0))
  {
    if st.current == Some(id) {
      var cleaned := Cleanup(st, id);
      RecoverKeeps(cleaned, env, ios);
      RecoverUntouched(cleaned, env, ios);
      assert Untouched(cleaned, Recover(cleaned, env, ios).state, id);
    }
  }

  // ---------------------------------------------------------------------
  // Generating the video
  // ---------------------------------------------------------------------

  /**
   * generateVideoFromFrames: nothing to run when no frame was captured;
   * otherwise ffmpeg reads the numbered PNG frames at 5 frames per second
   * and encodes them with libx264, both paths normalised for the platform.
   */
  function VideoCommand(totalFrames: nat, ffmpegPath: string, inputPattern: string, outputPath: string,
                        osName: string): (r: Option<seq<string>>)
    ensures r.None? <==> totalFrames == 0
    ensures r.Some? ==> |r.value| == 13 && r.value[0] == ffmpegPath && r.value[1] == "-y"
                        && r.value[2] == "-framerate" && r.value[3] == "5"
                        && r.value[4] == "-i" && Some(r.value[5]) == TestBase.NormalizePath(Some(inputPattern), osName)
                        && Some(r.value[12]) == TestBase.NormalizePath(Some(outputPath), osName)
  {
    if totalFrames == 0 then None
    else
      var input := TestBase.NormalizePath(Some(inputPattern), osName).value;
      var output := TestBase.NormalizePath(Some(outputPath), osName).value;
      Some([ffmpegPath, "-y", "-framerate", "5", "-i", input, "-c:v", "libx264",
            "-pix_fmt", "yuv420p", "-crf", "23", output])
  }

  // ---------------------------------------------------------------------
  // The recorder
  // ---------------------------------------------------------------------

  class TabClosureRecorder {
    var activeDevToolsSessions: map<string, Handle>
    var sessionRecordingState: map<string, bool>
    var sessionFrameCount: map<string, nat>
    var currentRecordingTargetId: Option<string>
    var isRecording: bool
    var autoRebindEnabled: bool
    /** The number of frames received since recording started, over all targets. */
    var frameCounter: nat

    function State(): SessionState
      reads this
    {
      SessionState(activeDevToolsSessions, sessionRecordingState, sessionFrameCount, currentRecordingTargetId)
    }

    /** The recording flag, the auto-rebind switch and the frame counter. */
    function Flags(): (bool, bool, nat)
      reads this
    {
      (isRecording, autoRebindEnabled, frameCounter)
    }

    ghost predicate Valid()
      reads this
    {
      WellFormed(State())
    }

    constructor ()
      ensures Valid() && State() == SessionState(map[], map[], map[], None)
      ensures Flags() == (false, true, 0)
    {
      activeDevToolsSessions := map[];
      sessionRecordingState := map[];
      sessionFrameCount := map[];
      currentRecordingTargetId := None;
      isRecording := false;
      autoRebindEnabled := true;
      frameCounter := 0;
    }

    /** startRecordingOnTarget, including getOrCreateDevToolsSession. */
    method StartRecordingOnTarget(targetId: string, io: StartIo) returns (ok: bool)
      modifies this
      ensures Started(State(), ok) == Start(old(State()), targetId, io)
      ensures Flags() == old(Flags())
    {
      var session: Option<Handle>;
      if targetId in activeDevToolsSessions && io.existingValid {
        session := Some(activeDevToolsSessions[targetId]);
      } else if io.created.Some? {
        activeDevToolsSessions := activeDevToolsSessions[targetId := io.created.value];
        session := io.created;
      } else {
        session := None;
      }
      if session.None? || !io.streamOk {
        return false;
      }
      sessionRecordingState := sessionRecordingState[targetId := true];
      sessionFrameCount := sessionFrameCount[targetId := 0];
      ok := true;
    }

    /** stopRecordingOnTarget: a failure to stop the screencast is only logged. */
    method StopRecordingOnTarget(targetId: string)
      modifies this
      ensures State() == Stop(old(State()), targetId)
      ensures Flags() == old(Flags())
    {
      sessionRecordingState := sessionRecordingState[targetId := false];
    }

    /** cleanupSessionForTarget: a failure to close the session is only logged. */
    method CleanupSessionForTarget(targetId: string)
      modifies this
      ensures State() == Cleanup(old(State()), targetId)
      ensures Flags() == old(Flags())
    {
      if targetId in sessionRecordingState && sessionRecordingState[targetId] {
        StopRecordingOnTarget(targetId);
      }
      activeDevToolsSessions := activeDevToolsSessions - {targetId};
      sessionRecordingState := sessionRecordingState - {targetId};
      sessionFrameCount := sessionFrameCount - {targetId};
    }

    /**
     * switchRecordingToTarget. An empty `ios` is where the model stops:
     * the recorder itself would go on retrying.
     */
    method SwitchRecordingToTarget(targetId: string, env: Env, ios: seq<StartIo>) returns (exhausted: bool)
      modifies this
      ensures Switched(State(), exhausted) == SwitchTo(old(State()), targetId, env, ios)
      ensures Flags() == old(Flags())
      decreases |ios|, 0
    {
      if ios == [] {
        return true;
      }
      if currentRecordingTargetId.Some? && currentRecordingTargetId.value != targetId {
        StopRecordingOnTarget(currentRecordingTargetId.value);
      }
      var ok := StartRecordingOnTarget(targetId, ios[0]);
      if ok {
        currentRecordingTargetId := Some(targetId);
        exhausted := false;
      } else {
        exhausted := AttemptRecordingRecovery(env, ios[1..]);
      }
    }

    /** attemptRecordingRecovery. */
    method AttemptRecordingRecovery(env: Env, ios: seq<StartIo>) returns (exhausted: bool)
      modifies this
      ensures Switched(State(), exhausted) == Recover(old(State()), env, ios)
      ensures Flags() == old(Flags())
      decreases |ios|, 2
    {
      var next := FindNextAvailableTarget(env.targets, currentRecordingTargetId);
      if next.Some? {
        exhausted := SwitchRecordingToTarget(next.value, env, ios);
      } else {
        exhausted := SwitchRecordingToMainTarget(env, ios);
      }
    }

    /** switchRecordingToMainTarget. */
    method SwitchRecordingToMainTarget(env: Env, ios: seq<StartIo>) returns (exhausted: bool)
      modifies this
      ensures Switched(State(), exhausted) == SwitchToMain(old(State()), env, ios)
      ensures Flags() == old(Flags())
      decreases |ios|, 1
    {
      exhausted := false;
      if !env.windowsOpen {
        return;
      }
      var main := GetCurrentTargetId(env.targets, env.mainWindowUrl);
      if main.Some? {
        exhausted := SwitchRecordingToTarget(main.value, env, ios);
      }
    }

    /**
     * handleTargetCreated: a new page target takes over the recording, but
     * only while recording with auto-rebind enabled.
     */
    method HandleTargetCreated(info: TargetInfo, env: Env, ios: seq<StartIo>) returns (scheduled: bool, exhausted: bool)
      modifies this
      ensures scheduled <==> info.kind == "page" && autoRebindEnabled && isRecording
      ensures scheduled ==> Switched(State(), exhausted) == SwitchTo(old(State()), info.id, env, ios)
      ensures !scheduled ==> State() == old(State()) && !exhausted
      ensures Flags() == old(Flags())
    {
      scheduled := info.kind == "page" && autoRebindEnabled && isRecording;
      exhausted := false;
      if scheduled {
        exhausted := SwitchRecordingToTarget(info.id, env, ios);
      }
    }

    /** handleTargetDestroyed. */
    method HandleTargetDestroyed(targetId: string, env: Env, ios: seq<StartIo>) returns (exhausted: bool)
      modifies this
      ensures Switched(State(), exhausted) == TargetDestroyed(old(State()), targetId, env, ios)
      ensures Flags() == old(Flags())
    {
      if currentRecordingTargetId == Some(targetId) {
        CleanupSessionForTarget(targetId);
        var next := FindNextAvailableTarget(env.targets, currentRecordingTargetId);
        if next.Some? {
          exhausted := SwitchRecordingToTarget(next.value, env, ios);
        } else {
          exhausted := SwitchRecordingToMainTarget(env, ios);
        }
      } else {
        CleanupSessionForTarget(targetId);
        exhausted := false;
      }
    }

    /**
     * handleScreencastFrame: the overall counter always advances; the
     * target's own count advances when it has one (for a target without a
     * count the handler fails right after the overall increment, and the
     * frame is neither saved nor acknowledged).
     */
    method HandleScreencastFrame(targetId: string) returns (counted: bool)
      requires Valid()
      modifies this
      ensures Valid()
      ensures frameCounter == old(frameCounter) + 1
      ensures counted <==> targetId in old(sessionFrameCount)
      ensures counted ==> sessionFrameCount == old(sessionFrameCount)[targetId := old(sessionFrameCount)[targetId] + 1]
      ensures !counted ==> sessionFrameCount == old(sessionFrameCount)
      ensures activeDevToolsSessions == old(activeDevToolsSessions)
      ensures sessionRecordingState == old(sessionRecordingState)
      ensures currentRecordingTargetId == old(currentRecordingTargetId)
      ensures isRecording == old(isRecording) && autoRebindEnabled == old(autoRebindEnabled)
    {
      frameCounter := frameCounter + 1;
      counted := targetId in sessionFrameCount;
      if counted {
        sessionFrameCount := sessionFrameCount[targetId := sessionFrameCount[targetId] + 1];
      }
    }

    /**
     * startRecording: the frame counter is reset, recording starts on the
     * current tab's target, and only then is that target current and the
     * recorder recording. No target, or a failed start, fails with
     * "Recording start failed".
     */
    method StartRecording(targets: Option<seq<TargetInfo>>, currentUrl: string, io: StartIo)
      returns (r: Result<()>)
      modifies this
      ensures frameCounter == 0 && autoRebindEnabled == old(autoRebindEnabled)
      ensures var target := CurrentTarget(targets, currentUrl);
              (r.Ok? <==> target.Some? && Start(old(State()), target.value, io).ok)
              && (target.None? ==> State() == old(State()))
              && (target.Some? && r.Err? ==> State() == Start(old(State()), target.value, io).state)
              && (r.Ok? ==> State() == Start(old(State()), target.value, io).state.(current := target))
      ensures r.Ok? ==> isRecording
      ensures r.Err? ==> r.message == "Recording start failed" && isRecording == old(isRecording)
    {
      frameCounter := 0;
      var target := GetCurrentTargetId(targets, currentUrl);
      if target.None? {
        return Err("Recording start failed");
      }
      var ok := StartRecordingOnTarget(target.value, io);
      if !ok {
        return Err("Recording start failed");
      }
      currentRecordingTargetId := target;
      isRecording := true;
      r := Ok(());
    }

    /**
     * cleanupAllSessions: every target with a session is cleaned up and no
     * target is current any more. Recording flags of targets without a
     * session survive.
     */
    method CleanupAllSessions()
      requires Valid()
      modifies this
      ensures Valid()
      ensures activeDevToolsSessions == map[] && sessionFrameCount == map[]
      ensures sessionRecordingState == old(sessionRecordingState) - old(activeDevToolsSessions).Keys
      ensures currentRecordingTargetId == None
      ensures Flags() == old(Flags())
    {
      var keys := activeDevToolsSessions.Keys;
      while keys != {}
        invariant Valid() && Flags() == old(Flags())
        invariant activeDevToolsSessions.Keys == keys
        invariant sessionRecordingState == old(sessionRecordingState) - (old(activeDevToolsSessions).Keys - keys)
        decreases keys
      {
        var t :| t in keys;
        CleanupSessionForTarget(t);
        keys := keys - {t};
      }
      currentRecordingTargetId := None;
    }

    /**
     * stopRecordingAndGenerateVideo: the current target is stopped, the
     * recorder stops recording, the video command is derived from the frame
     * count, and every session is cleaned up.
     */
    method StopRecordingAndGenerateVideo(ffmpegPath: string, inputPattern: string, outputPath: string, osName: string)
      returns (command: Option<seq<string>>)
      requires Valid()
      modifies this
      ensures Valid() && !isRecording
      ensures command == VideoCommand(old(frameCounter), ffmpegPath, inputPattern, outputPath, osName)
      ensures activeDevToolsSessions == map[] && sessionFrameCount == map[] && currentRecordingTargetId == None
      ensures var stopped := if old(currentRecordingTargetId).Some?
                             then Stop(old(State()), old(currentRecordingTargetId).value) else old(State());
              sessionRecordingState == stopped.recording - old(activeDevToolsSessions).Keys
      ensures autoRebindEnabled == old(autoRebindEnabled) && frameCounter == old(frameCounter)
    {
      if currentRecordingTargetId.Some? {
        StopRecordingOnTarget(currentRecordingTargetId.value);
      }
      isRecording := false;
      command := VideoCommand(frameCounter, ffmpegPath, inputPattern, outputPath, osName);
      CleanupAllSessions();
    }

    /** close: a recorder still recording is stopped and its video command produced first. */
    method Close(ffmpegPath: string, inputPattern: string, outputPath: string, osName: string)
      returns (command: Option<seq<string>>)
      requires Valid()
      modifies this
      ensures Valid() && !isRecording
      ensures old(isRecording) ==> command == VideoCommand(old(frameCounter), ffmpegPath, inputPattern, outputPath, osName)
                                   && activeDevToolsSessions == map[] && sessionFrameCount == map[]
                                   && currentRecordingTargetId == None
      ensures old(isRecording) ==>
                var stopped := if old(currentRecordingTargetId).Some?
                               then Stop(old(State()), old(currentRecordingTargetId).value) else old(State());
                sessionRecordingState == stopped.recording - old(activeDevToolsSessions).Keys
      ensures !old(isRecording) ==> command.None? && State() == old(State())
      ensures autoRebindEnabled == old(autoRebindEnabled) && frameCounter == old(frameCounter)
    {
      command := None;
      if isRecording {
        command := StopRecordingAndGenerateVideo(ffmpegPath, inputPattern, outputPath, osName);
      }
    }

    /** setAutoRebindEnabled. */
    method SetAutoRebindEnabled(enabled: bool)
      modifies this
      ensures autoRebindEnabled == enabled
      ensures State() == old(State()) && isRecording == old(isRecording) && frameCounter == old(frameCounter)
    {
      autoRebindEnabled := enabled;
    }
  }
}
