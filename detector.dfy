/**
 * The detection state machine of drowsiness_detector.py: the eye aspect
 * ratio of one face, the per-face update of the closed-eye counter and the
 * drowsy flag, the cooldown-gated dispatch of the audio and e-mail alerts,
 * the frame loop of `start_detection`, and `get_statistics`.
 *
 * The vision layer (camera, face detector, landmark predictor, drawing) is
 * outside the model: a frame is the list of faces it yields, each face the
 * three landmark distances of each eye. The wall clock is a `now` argument.
 * A dispatched alert is recorded as the time it was dispatched.
 */
module Detector {
  import opened Wrappers
  import Config

  // ---------------------------------------------------------------------
  // Eye aspect ratio
  // ---------------------------------------------------------------------

  /** A Euclidean distance between two landmarks. */
  type Distance = x: real | x >= 0.0

  /**
   * One eye: `a` = |p1 p5| and `b` = |p2 p4| (the lids), `c` = |p0 p3|
   * (the corners).
   */
  datatype Eye = Eye(a: Distance, b: Distance, c: Distance)

  datatype Face = Face(left: Eye, right: Eye)

  /**
   * An EAR as the floating-point division produces it: a finite value, +inf
   * (corners coincide, lids apart) or NaN (every distance zero). The
   * division does not raise.
   */
  datatype Ear = Finite(value: real) | Infinite | NotANumber

  /** `calculate_ear`: (A + B) / (2 C). */
  function CalculateEar(eye: Eye): (ear: Ear)
    ensures eye.c > 0.0 ==> ear.Finite? && ear.value >= 0.0 && ear.value * (2.0 * eye.c) == eye.a + eye.b
    ensures eye.c == 0.0 ==> !ear.Finite?
    ensures ear.NotANumber? <==> eye.c == 0.0 && eye.a == 0.0 && eye.b == 0.0
  {
    if eye.c != 0.0 then Finite((eye.a + eye.b) / (2.0 * eye.c))
    else if eye.a + eye.b == 0.0 then NotANumber
    else Infinite
  }

  /** The mean of the two eyes' EARs, `(left_ear + right_ear) / 2.0`. */
  function Mean(l: Ear, r: Ear): Ear
  {
    if l.NotANumber? || r.NotANumber? then NotANumber
    else if l.Finite? && r.Finite? then Finite((l.value + r.value) / 2.0)
    else Infinite
  }

  function FaceEar(face: Face): Ear
  {
    Mean(CalculateEar(face.left), CalculateEar(face.right))
  }

  /** `current_ear < EAR_THRESHOLD`; false for +inf and NaN. */
  predicate Below(ear: Ear, threshold: real)
  {
    ear.Finite? && ear.value < threshold
  }

  predicate LowFace(cfg: Config.Settings, face: Face)
  {
    Below(FaceEar(face), cfg.earThreshold)
  }

  /** A degenerate eye (coinciding corners) never counts as a closed eye. */
  lemma DegenerateEyeNeverLow(cfg: Config.Settings, face: Face)
    requires face.left.c == 0.0 || face.right.c == 0.0
    ensures !LowFace(cfg, face)
  {
  }

  /** With both eyes well formed the reading is the finite mean of two non-negative ratios. */
  lemma WellFormedFaceEar(face: Face)
    requires face.left.c > 0.0 && face.right.c > 0.0
    ensures FaceEar(face).Finite? && FaceEar(face).value >= 0.0
  {
  }

  // ---------------------------------------------------------------------
  // The detector's state, as a value
  // ---------------------------------------------------------------------

  /** The fields of a `DrowsinessDetector`, with the dispatched alerts. */
  datatype State = State(
    isDrowsy: bool,
    eyeClosedFrames: int,
    lastAlertTime: real,
    lastEmailTime: real,
    running: bool,
    totalFrames: int,
    drowsyDetections: int,
    sessionStartTime: real,
    audioDispatches: seq<real>,
    emailDispatches: seq<real>)

  /** The state `__init__` sets up at time `now`. */
  function Initial(now: real): State
  {
    State(false, 0, 0.0, 0.0, false, 0, 0, now, [], [])
  }

  /**
   * `handle_drowsiness_detection`: each channel fires when strictly more
   * than its cooldown has passed since it last fired, and then records
   * `now`; the two channels are decided independently.
   */
  function HandleDetection(st: State, cfg: Config.Settings, now: real): State
  {
    var afterAudio :=
      if now - st.lastAlertTime > cfg.audioAlertCooldown
      then st.(lastAlertTime := now, audioDispatches := st.audioDispatches + [now])
      else st;
    if now - afterAudio.lastEmailTime > cfg.emailAlertCooldown
    then afterAudio.(lastEmailTime := now, emailDispatches := afterAudio.emailDispatches + [now])
    else afterAudio
  }

  /** One pass of the per-face loop body of `process_frame`. */
  function FaceStep(st: State, cfg: Config.Settings, face: Face, now: real): State
  {
    if LowFace(cfg, face) then
      var counted := st.(eyeClosedFrames := st.eyeClosedFrames + 1);
      if counted.eyeClosedFrames >= cfg.framesThreshold && !counted.isDrowsy
      then HandleDetection(counted.(isDrowsy := true, drowsyDetections := counted.drowsyDetections + 1), cfg, now)
      else counted
    else st.(eyeClosedFrames := 0, isDrowsy := false)
  }

  /** `process_frame`: the faces of one frame, in order. */
  function FrameStep(st: State, cfg: Config.Settings, faces: seq<Face>, now: real): State
    decreases |faces|
  {
    if faces == [] then st
    else FaceStep(FrameStep(st, cfg, faces[..|faces| - 1], now), cfg, faces[|faces| - 1], now)
  }

  /** A frame as the camera delivers it: its faces, and the time it is processed. */
  datatype Capture = Capture(faces: seq<Face>, now: real)

  /**
   * One iteration of the `while self.running` loop as the outside world
   * sees it: the result of `cap.read()`, whether 'q' was pressed, and
   * whether `stop_detection` ran before the next check of `running`.
   * Reading past the end of a script fails.
   */
  datatype Tick = Tick(frame: Option<Capture>, quitKey: bool, stopAfter: bool)

  /** The frame loop of `start_detection` once `running` is set. */
  function RunLoop(st: State, cfg: Config.Settings, script: seq<Tick>): State
    decreases |script|
  {
    if !st.running || script == [] || script[0].frame.None? then st
    else
      var c := script[0].frame.value;
      var processed := FrameStep(st.(totalFrames := st.totalFrames + 1), cfg, c.faces, c.now);
      if script[0].quitKey then processed
      else RunLoop(if script[0].stopAfter then processed.(running := false) else processed, cfg, script[1..])
  }

  /**
   * How many frames the loop processes: it goes on while `running` holds,
   * reads succeed and 'q' has not been pressed.
   */
  function FramesProcessed(running: bool, script: seq<Tick>): (n: nat)
    ensures n <= |script|
    ensures n > 0 ==> running
    ensures forall k :: 0 <= k < n ==> script[k].frame.Some?
    ensures forall k :: 0 <= k < n - 1 ==> !script[k].quitKey && !script[k].stopAfter
    ensures running && n < |script| && (n == 0 || (!script[n - 1].quitKey && !script[n - 1].stopAfter))
            ==> script[n].frame.None?
    decreases |script|
  {
    if !running || script == [] || script[0].frame.None? then 0
    else if script[0].quitKey || script[0].stopAfter then 1
    else 1 + FramesProcessed(true, script[1..])
  }

  // ---------------------------------------------------------------------
  // The invariant of the state machine
  // ---------------------------------------------------------------------

  /** No two dispatches on one channel closer than its cooldown; the last one is the recorded time. */
  predicate CooldownRespected(log: seq<real>, last: real, cooldown: real)
  {
    && (forall i :: 0 < i < |log| ==> log[i] - log[i - 1] > cooldown)
    && (|log| > 0 ==> log[|log| - 1] == last)
  }

  /**
   * What every reachable state satisfies: counters are non-negative, the
   * drowsy flag is only up while the counter is at the threshold or above
   * (and, for a threshold of at least 1, exactly then), each onset
   * dispatches at most one alert per channel, and each channel keeps its
   * cooldown.
   */
  predicate Consistent(st: State, cfg: Config.Settings)
  {
    && st.eyeClosedFrames >= 0
    && st.totalFrames >= 0
    && st.drowsyDetections >= 0
    && (st.isDrowsy ==> st.eyeClosedFrames >= cfg.framesThreshold)
    && (cfg.framesThreshold >= 1 && !st.isDrowsy ==> st.eyeClosedFrames < cfg.framesThreshold)
    && |st.audioDispatches| <= st.drowsyDetections
    && |st.emailDispatches| <= st.drowsyDetections
    && CooldownRespected(st.audioDispatches, st.lastAlertTime, cfg.audioAlertCooldown)
    && CooldownRespected(st.emailDispatches, st.lastEmailTime, cfg.emailAlertCooldown)
  }

  lemma InitialConsistent(cfg: Config.Settings, now: real)
    ensures Consistent(Initial(now), cfg)
  {
  }

  lemma HandleDetectionConsistent(st: State, cfg: Config.Settings, now: real)
    requires Consistent(st.(drowsyDetections := st.drowsyDetections - 1), cfg)
    requires st.isDrowsy
    ensures Consistent(HandleDetection(st, cfg, now), cfg)
  {
  }

  lemma FaceStepConsistent(st: State, cfg: Config.Settings, face: Face, now: real)
    requires Consistent(st, cfg)
    ensures Consistent(FaceStep(st, cfg, face, now), cfg)
  {
  }

  lemma {:induction false} FrameStepConsistent(st: State, cfg: Config.Settings, faces: seq<Face>, now: real)
    requires Consistent(st, cfg)
    ensures Consistent(FrameStep(st, cfg, faces, now), cfg)
    decreases |faces|
  {
    if faces != [] {
      FrameStepConsistent(st, cfg, faces[..|faces| - 1], now);
      FaceStepConsistent(FrameStep(st, cfg, faces[..|faces| - 1], now), cfg, faces[|faces| - 1], now);
    }
  }

  /** Every state the detection loop reaches satisfies the invariant. */
  lemma {:induction false} RunLoopConsistent(st: State, cfg: Config.Settings, script: seq<Tick>)
    requires Consistent(st, cfg)
    ensures Consistent(RunLoop(st, cfg, script), cfg)
    decreases |script|
  {
    if st.running && script != [] && script[0].frame.Some? {
      var c := script[0].frame.value;
      var counted := st.(totalFrames := st.totalFrames + 1);
      FrameStepConsistent(counted, cfg, c.faces, c.now);
      var processed := FrameStep(counted, cfg, c.faces, c.now);
      if !script[0].quitKey {
        RunLoopConsistent(if script[0].stopAfter then processed.(running := false) else processed, cfg, script[1..]);
      }
    }
  }

  // ---------------------------------------------------------------------
  // The detector object
  // ---------------------------------------------------------------------

  datatype Statistics = Statistics(
    sessionTime: real,
    totalFrames: int,
    drowsyDetections: int,
    currentStatus: string,
    fps: real)

  class DrowsinessDetector {
    const cfg: Config.Settings

    var isDrowsy: bool
    var eyeClosedFrames: int
    var lastAlertTime: real
    var lastEmailTime: real
    var running: bool
    var totalFrames: int
    var drowsyDetections: int
    var sessionStartTime: real

    /** The times at which an audio alert and an e-mail alert were launched. */
    ghost var audioDispatches: seq<real>
    ghost var emailDispatches: seq<real>

    ghost function Model(): State
      reads this
    {
      State(isDrowsy, eyeClosedFrames, lastAlertTime, lastEmailTime, running,
            totalFrames, drowsyDetections, sessionStartTime, audioDispatches, emailDispatches)
    }

    ghost predicate Valid()
      reads this
    {
      Consistent(Model(), cfg)
    }

    constructor (cfg: Config.Settings, now: real)
      ensures this.cfg == cfg
      ensures Model() == Initial(now)
      ensures Valid()
    {
      this.cfg := cfg;
      isDrowsy := false;
      eyeClosedFrames := 0;
      lastAlertTime := 0.0;
      lastEmailTime := 0.0;
      running := false;
      totalFrames := 0;
      drowsyDetections := 0;
      sessionStartTime := now;
      audioDispatches := [];
      emailDispatches := [];
    }

    method HandleDrowsinessDetection(now: real)
      modifies this
      ensures Model() == HandleDetection(old(Model()), cfg, now)
    {
      if now - lastAlertTime > cfg.audioAlertCooldown {
        audioDispatches := audioDispatches + [now];
        lastAlertTime := now;
      }
      if now - lastEmailTime > cfg.emailAlertCooldown {
        emailDispatches := emailDispatches + [now];
        lastEmailTime := now;
      }
    }

    method ProcessFrame(faces: seq<Face>, now: real)
      modifies this
      ensures Model() == FrameStep(old(Model()), cfg, faces, now)
      ensures old(Valid()) ==> Valid()
    {
      for i := 0 to |faces|
        invariant Model() == FrameStep(old(Model()), cfg, faces[..i], now)
      {
        assert faces[..i + 1][..i] == faces[..i];
        var ear := FaceEar(faces[i]);
        if Below(ear, cfg.earThreshold) {
          eyeClosedFrames := eyeClosedFrames + 1;
          if eyeClosedFrames >= cfg.framesThreshold {
            if !isDrowsy {
              isDrowsy := true;
              drowsyDetections := drowsyDetections + 1;
              HandleDrowsinessDetection(now);
            }
          }
        } else {
          eyeClosedFrames := 0;
          isDrowsy := false;
        }
      }
      assert faces[..|faces|] == faces;
      if old(Valid()) {
        FrameStepConsistent(old(Model()), cfg, faces, now);
      }
    }

    /**
     * `start_detection`: false when no camera opens; otherwise the frame
     * loop runs to its end. Python returns None in that case.
     */
    method StartDetection(cameraOpened: bool, script: seq<Tick>) returns (started: bool)
      modifies this
      ensures started == cameraOpened
      ensures !cameraOpened ==> Model() == old(Model())
      ensures cameraOpened ==> Model() == RunLoop(old(Model()).(running := true), cfg, script)
      ensures old(Valid()) ==> Valid()
    {
      if !cameraOpened {
        return false;
      }
      running := true;
      ghost var final := RunLoop(Model(), cfg, script);
      if old(Valid()) {
        RunLoopConsistent(Model(), cfg, script);
      }
      var i := 0;
      while running
        invariant 0 <= i <= |script|
        invariant RunLoop(Model(), cfg, script[i..]) == final
        decreases |script| - i
      {
        if i == |script| || script[i].frame.None? {
          break;
        }
        var capture := script[i].frame.value;
        totalFrames := totalFrames + 1;
        ProcessFrame(capture.faces, capture.now);
        if script[i].quitKey {
          break;
        }
        if script[i].stopAfter {
          StopDetection();
        }
        assert script[i..][1..] == script[i + 1..];
        i := i + 1;
      }
      return true;
    }

    method StopDetection()
      modifies this
      ensures Model() == old(Model()).(running := false)
    {
      running := false;
    }

    /**
     * `get_statistics` at time `now`: the status is "Drowsy" exactly when
     * the flag is up, and the frame rate divides by at least one second, so
     * it never exceeds the frame count.
     */
    function GetStatistics(now: real): (s: Statistics)
      reads this
      ensures s.currentStatus == "Drowsy" <==> isDrowsy
      ensures s.currentStatus == "Alert" <==> !isDrowsy
      ensures s.sessionTime == now - sessionStartTime
      ensures s.totalFrames == totalFrames && s.drowsyDetections == drowsyDetections
      ensures s.fps * (if s.sessionTime > 1.0 then s.sessionTime else 1.0) == totalFrames as real
      ensures totalFrames >= 0 ==> 0.0 <= s.fps <= totalFrames as real
    {
      var sessionTime := now - sessionStartTime;
      var denominator := if sessionTime > 1.0 then sessionTime else 1.0;
      Statistics(sessionTime, totalFrames, drowsyDetections,
                 if isDrowsy then "Drowsy" else "Alert",
                 totalFrames as real / denominator)
    }
  }
}
