/**
 * What the detection state machine guarantees: the invariant every step
 * keeps, the edge-triggered onset, the per-channel cooldowns, and the
 * frame accounting of the detection loop.
 */
module DetectorProperties {
  import opened Wrappers
  import Config
  import opened Detector

  // ---------------------------------------------------------------------
  // The invariant
  // ---------------------------------------------------------------------

  /** With a threshold of at least 1 the flag is up exactly when the counter has reached it. */
  lemma DrowsyIffCounterAtThreshold(st: State, cfg: Config.Settings)
    requires Consistent(st, cfg)
    requires cfg.framesThreshold >= 1
    ensures st.isDrowsy <==> st.eyeClosedFrames >= cfg.framesThreshold
  {
  }

  // ---------------------------------------------------------------------
  // One face
  // ---------------------------------------------------------------------

  /** An open eye clears the counter and the flag, whatever came before, and fires nothing. */
  lemma OpenEyesReset(st: State, cfg: Config.Settings, face: Face, now: real)
    requires !LowFace(cfg, face)
    ensures var next := FaceStep(st, cfg, face, now);
            && next.eyeClosedFrames == 0 && !next.isDrowsy
            && next.drowsyDetections == st.drowsyDetections
            && next.audioDispatches == st.audioDispatches && next.emailDispatches == st.emailDispatches
            && next.lastAlertTime == st.lastAlertTime && next.lastEmailTime == st.lastEmailTime
  {
  }

  /**
   * A closed eye adds exactly one to the counter; the onset (one more
   * detection and a call to the dispatcher) happens exactly when the
   * counter reaches the threshold, never while already drowsy.
   */
  lemma OnsetExactlyAtThreshold(st: State, cfg: Config.Settings, face: Face, now: real)
    requires Consistent(st, cfg)
    requires cfg.framesThreshold >= 1
    requires LowFace(cfg, face)
    ensures var next := FaceStep(st, cfg, face, now);
            var onset := st.eyeClosedFrames + 1 == cfg.framesThreshold;
            && next.eyeClosedFrames == st.eyeClosedFrames + 1
            && next.drowsyDetections == st.drowsyDetections + (if onset then 1 else 0)
            && next.isDrowsy == (next.eyeClosedFrames >= cfg.framesThreshold)
            && (!onset ==> next == st.(eyeClosedFrames := st.eyeClosedFrames + 1))
            && (onset ==> next == HandleDetection(st.(eyeClosedFrames := st.eyeClosedFrames + 1,
                                                      isDrowsy := true,
                                                      drowsyDetections := st.drowsyDetections + 1), cfg, now))
  {
  }

  // ---------------------------------------------------------------------
  // One frame
  // ---------------------------------------------------------------------

  /** A frame without a face changes nothing. */
  lemma NoFaceNoChange(st: State, cfg: Config.Settings, now: real)
    ensures FrameStep(st, cfg, [], now) == st
  {
  }

  /** When the last face of a frame has open eyes, the frame ends with a cleared counter and flag. */
  lemma LastFaceDecides(st: State, cfg: Config.Settings, faces: seq<Face>, now: real)
    requires faces != [] && !LowFace(cfg, faces[|faces| - 1])
    ensures FrameStep(st, cfg, faces, now).eyeClosedFrames == 0
    ensures !FrameStep(st, cfg, faces, now).isDrowsy
  {
  }

  /**
   * A run of closed-eye faces adds its length to the counter and raises at
   * most one onset: exactly one if the run carries a non-drowsy detector to
   * the threshold, none if it was drowsy already or stays below.
   */
  lemma {:induction false} ClosedRunFiresOnce(st: State, cfg: Config.Settings, faces: seq<Face>, now: real)
    requires Consistent(st, cfg)
    requires cfg.framesThreshold >= 1
    requires forall k :: 0 <= k < |faces| ==> LowFace(cfg, faces[k])
    ensures var next := FrameStep(st, cfg, faces, now);
            && next.eyeClosedFrames == st.eyeClosedFrames + |faces|
            && next.isDrowsy == (next.eyeClosedFrames >= cfg.framesThreshold)
            && next.drowsyDetections == st.drowsyDetections +
                 (if !st.isDrowsy && st.eyeClosedFrames + |faces| >= cfg.framesThreshold then 1 else 0)
    decreases |faces|
  {
    if faces != [] {
      var prefix := faces[..|faces| - 1];
      ClosedRunFiresOnce(st, cfg, prefix, now);
      FrameStepConsistent(st, cfg, prefix, now);
      OnsetExactlyAtThreshold(FrameStep(st, cfg, prefix, now), cfg, faces[|faces| - 1], now);
    }
  }

  /** Frames never lower the detection count, and dispatch logs only grow. */
  lemma {:induction false} FrameStepMonotone(st: State, cfg: Config.Settings, faces: seq<Face>, now: real)
    ensures var next := FrameStep(st, cfg, faces, now);
            && next.drowsyDetections >= st.drowsyDetections
            && st.audioDispatches <= next.audioDispatches
            && st.emailDispatches <= next.emailDispatches
            && next.totalFrames == st.totalFrames
            && next.running == st.running
    decreases |faces|
  {
    if faces != [] {
      FrameStepMonotone(st, cfg, faces[..|faces| - 1], now);
    }
  }

  // ---------------------------------------------------------------------
  // Alert dispatch
  // ---------------------------------------------------------------------

  /**
   * Each channel fires exactly when strictly more than its cooldown has
   * passed, and then records `now`; a channel that does not fire keeps its
   * time, and neither channel's decision touches the other's time.
   */
  lemma ChannelsDecidedIndependently(st: State, cfg: Config.Settings, now: real)
    ensures var next := HandleDetection(st, cfg, now);
            var audio := now - st.lastAlertTime > cfg.audioAlertCooldown;
            var email := now - st.lastEmailTime > cfg.emailAlertCooldown;
            && next.audioDispatches == st.audioDispatches + (if audio then [now] else [])
            && next.emailDispatches == st.emailDispatches + (if email then [now] else [])
            && next.lastAlertTime == (if audio then now else st.lastAlertTime)
            && next.lastEmailTime == (if email then now else st.lastEmailTime)
            && next == st.(lastAlertTime := next.lastAlertTime, lastEmailTime := next.lastEmailTime,
                           audioDispatches := next.audioDispatches, emailDispatches := next.emailDispatches)
  {
  }

  /**
   * With cooldowns of 5 s (audio) and 60 s (e-mail), two onsets 10 s apart
   * after a quiet period sound the alarm twice but send one e-mail.
   */
  lemma CooldownsIndependent(st: State, cfg: Config.Settings, t: real)
    requires cfg.audioAlertCooldown == 5.0 && cfg.emailAlertCooldown == 60.0
    requires t - st.lastAlertTime > 5.0 && t - st.lastEmailTime > 60.0
    ensures var second := HandleDetection(HandleDetection(st, cfg, t), cfg, t + 10.0);
            && second.audioDispatches == st.audioDispatches + [t, t + 10.0]
            && second.emailDispatches == st.emailDispatches + [t]
  {
  }

  /** In every run, consecutive alerts on one channel are more than its cooldown apart. */
  lemma AlertsRespectCooldowns(st: State, cfg: Config.Settings, script: seq<Tick>)
    requires Consistent(st, cfg)
    ensures var final := RunLoop(st, cfg, script);
            && (forall i :: 0 < i < |final.audioDispatches| ==>
                  final.audioDispatches[i] - final.audioDispatches[i - 1] > cfg.audioAlertCooldown)
            && (forall i :: 0 < i < |final.emailDispatches| ==>
                  final.emailDispatches[i] - final.emailDispatches[i - 1] > cfg.emailAlertCooldown)
  {
    RunLoopConsistent(st, cfg, script);
  }

  // ---------------------------------------------------------------------
  // The detection loop
  // ---------------------------------------------------------------------

  /**
   * The loop adds one to `total_frames` per frame it reads and processes,
   * never for a failed read, and never lowers the detection count.
   */
  lemma {:induction false} RunLoopCountsFrames(st: State, cfg: Config.Settings, script: seq<Tick>)
    ensures var final := RunLoop(st, cfg, script);
            && final.totalFrames == st.totalFrames + FramesProcessed(st.running, script)
            && final.drowsyDetections >= st.drowsyDetections
            && st.audioDispatches <= final.audioDispatches
            && st.emailDispatches <= final.emailDispatches
    decreases |script|
  {
    if st.running && script != [] && script[0].frame.Some? {
      var c := script[0].frame.value;
      var counted := st.(totalFrames := st.totalFrames + 1);
      FrameStepMonotone(counted, cfg, c.faces, c.now);
      var processed := FrameStep(counted, cfg, c.faces, c.now);
      if !script[0].quitKey {
        var next := if script[0].stopAfter then processed.(running := false) else processed;
        RunLoopCountsFrames(next, cfg, script[1..]);
      }
    }
  }

  /** A stop request after frame k ends the loop before it reads another frame. */
  lemma StopWithinOneFrame(script: seq<Tick>, k: nat)
    requires k < |script| && script[k].stopAfter
    ensures FramesProcessed(true, script) <= k + 1
  {
  }

  /** Ending the loop by a failed read or by 'q' leaves `running` set. */
  lemma {:induction false} OnlyStopClearsRunning(st: State, cfg: Config.Settings, script: seq<Tick>)
    requires st.running
    requires forall k :: 0 <= k < |script| ==> !script[k].stopAfter
    ensures RunLoop(st, cfg, script).running
    decreases |script|
  {
    if script != [] && script[0].frame.Some? {
      var c := script[0].frame.value;
      FrameStepMonotone(st.(totalFrames := st.totalFrames + 1), cfg, c.faces, c.now);
      if !script[0].quitKey {
        var processed := FrameStep(st.(totalFrames := st.totalFrames + 1), cfg, c.faces, c.now);
        OnlyStopClearsRunning(processed, cfg, script[1..]);
      }
    }
  }

  // ---------------------------------------------------------------------
  // A worked run
  // ---------------------------------------------------------------------

  /** A face whose two eyes both read `ear`. */
  function FaceWithEar(ear: Distance): Face
  {
    Face(Eye(ear, ear, 1.0), Eye(ear, ear, 1.0))
  }

  /**
   * Threshold 0.25 over 3 frames, one face per frame with EARs 0.30, 0.20,
   * 0.18, 0.19, 0.30: the counter reaches 3 on the fourth frame, which is
   * the one onset, and the fifth frame clears it.
   */
  lemma WorkedRun(cfg: Config.Settings, st: State)
    requires cfg.earThreshold == 0.25 && cfg.framesThreshold == 3
    requires st == Initial(0.0)
    ensures var s1 := FrameStep(st, cfg, [FaceWithEar(0.30)], 100.0);
            var s2 := FrameStep(s1, cfg, [FaceWithEar(0.20)], 101.0);
            var s3 := FrameStep(s2, cfg, [FaceWithEar(0.18)], 102.0);
            var s4 := FrameStep(s3, cfg, [FaceWithEar(0.19)], 103.0);
            var s5 := FrameStep(s4, cfg, [FaceWithEar(0.30)], 104.0);
            && s3.eyeClosedFrames == 2 && !s3.isDrowsy && s3.drowsyDetections == 0
            && s4.eyeClosedFrames == 3 && s4.isDrowsy && s4.drowsyDetections == 1
            && s5.eyeClosedFrames == 0 && !s5.isDrowsy && s5.drowsyDetections == 1
  {
  }
}
