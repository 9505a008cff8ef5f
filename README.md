# Drowsiness detection core, modelled in Dafny

This project models the decision logic of a webcam drowsiness detector. The
detector computes an eye aspect ratio (EAR) for every detected face. It counts
consecutive closed-eye readings and raises a drowsy flag once the count reaches
a frame threshold. On that onset it dispatches an audio alert and an e-mail
alert, each gated by its own cooldown. It also keeps session statistics. Two
more source files are modelled: the configuration validators of `config.py`
and the two pure rules in `utils.py` (duration formatting and old-file
retention).

Files:

- `wrappers.dfy`: `Option`.
- `config.dfy` (module `Config`): the shipped constants, a `Settings` value
  that stands for the module globals, `ValidateConfig`, `EmailConfigStatus`
  and `AudioConfigStatus`. The existence check for files is a
  `pathExists` parameter.
- `utils.dfy` (module `Utils`): `FormatDuration` with a parser that reads its
  output back, and the retention rule `FilesToRemove` with the deletion loop
  `CleanupOldFiles`.
- `detector.dfy` (module `Detector`): the EAR over abstract landmark
  distances; the detector's fields as a `State` value; the step functions
  `FaceStep`, `FrameStep`, `HandleDetection` and `RunLoop`; the invariant
  `Consistent`; and the class `DrowsinessDetector`. The class methods update
  its fields in place and are proved equal to the step functions.
- `detector_properties.dfy` (module `DetectorProperties`): onset, reset,
  cooldown and loop-accounting lemmas.

How the outside world enters the model:

- A frame is the list of faces the vision layer reports. Each face is given
  by three landmark distances per eye.
- The clock is a `now` argument. Each frame has one time.
- Camera reads, the 'q' key and `stop_detection` calls from another thread
  form a script of `Tick`s. Reading past the end of the script counts as a
  failed read.
- Launching an alert thread is recorded as a dispatch time in a ghost log,
  one log per channel.

Behaviour of the source worth noting:

- `calculate_ear` has no guard for coinciding eye corners. Floating-point
  division then gives +inf, or NaN when every distance is zero, and neither
  compares below the threshold. The model has these two readings (`Ear`), so
  a degenerate eye never counts as closed.
- Onset fires on the face that brings the counter to the threshold. With a
  threshold of 3 and EARs 0.30, 0.20, 0.18, 0.19, 0.30, that is the fourth
  frame (`WorkedRun`).
- After a failed read or a 'q' keypress the loop ends but `running` stays
  set. Only `stop_detection` clears it (`OnlyStopClearsRunning`).
- Every face in a frame updates the one shared counter. A last face with
  open eyes clears the counter and the flag whatever came before
  (`LastFaceDecides`). Closed-eye faces accumulate, one per face
  (`ClosedRunFiresOnce`).

## Model

| member | source | states |
|---|---|---|
| `Config.ValidateConfig` | config.py:108-121 | reports the EAR issue iff the threshold is outside the open interval (0, 1), the frames issue iff the threshold is below 1, the e-mail issue iff sender or receiver is empty; issues come in check order, at most three, and the list is empty iff all checks pass |
| `Config.EmailStatusImpliesNoEmailIssue` | config.py:118-125 | complete e-mail credentials imply no e-mail issue from validation |
| `Config.PasswordIsNotValidated` | config.py:118-125 | both addresses with an empty password pass validation while e-mail stays disabled |
| `Config.EmailConfigStatus` | config.py:123-125 | true iff sender, password and receiver are all non-empty; no contract of its own, related to validation by `Config.EmailStatusImpliesNoEmailIssue` and `Config.PasswordIsNotValidated` |
| `Config.FirstPlayable` | config.py:129-131 | the index of the first non-empty existing path: every earlier path is unusable, and the path at the index (if any) is usable |
| `Config.AudioConfigStatus` | config.py:127-132 | `(true, Some(p))` for the first usable path in list order; `(false, None)` exactly when no configured path is usable |
| `Config.Load` | config.py:15-62 | the settings the module builds on import: the shipped thresholds and cooldowns, the ordered audio paths, and the e-mail fields read from the environment with "" as the default; no contract of its own, its property is `Config.ShippedDefaultsAreValid` |
| `Config.ShippedDefaultsAreValid` | config.py:112-116 | with the shipped threshold 0.25 and 20 frames, validation reports only an incomplete e-mail setup, and reports it exactly when an address is missing from the environment |
| `Utils.NatToString` | utils.py:163 | the decimal numeral is non-empty, all digits, and starts with '0' only for zero |
| `Utils.ParseNatToString` | utils.py:163 | reading the numeral back gives the number |
| `Utils.Split` | utils.py:162-171 | below 60 the seconds themselves; below 3600 minutes in 1..59 and seconds in 0..59 with 60·m + s = seconds; otherwise hours ≥ 1 and minutes in 0..59, with the dropped seconds under one minute |
| `Utils.FormatDuration` | utils.py:160-171 | the formatted text is an integer followed by "s", "m <s>s" or "h <m>m" as the branch of `Utils.Split` chooses; its contract is `Utils.FormatDurationRoundTrip` |
| `Utils.FormatDurationRoundTrip` | utils.py:160-171 | the formatted text parses back to exactly the branch and fields that were printed |
| `Utils.FormatDurationInjectiveBelowHour` | utils.py:162-167 | two different durations under one hour never print the same |
| `Utils.HoursDropSeconds` | utils.py:168-171 | from one hour on, the seconds within the current minute do not change the text |
| `Utils.SortByMtime` | utils.py:121 | the sorted list is a permutation of the files |
| `Utils.SortByMtimeSorted` | utils.py:121 | the sorted list is oldest first |
| `Utils.FilesToRemove` | utils.py:117-124 | nothing is removed when at most `max_files` match or when `max_files` is 0 (`[:-0]` is empty); otherwise `len - max_files` files are removed for a positive limit and the `-max_files` oldest for a negative one; the removed files are a prefix of the oldest-first order |
| `Utils.RemovesOnlyOldest` | utils.py:120-124 | removed and kept files together are exactly the matched files, every removed file is no newer than any kept one, and a positive limit keeps exactly `max_files` |
| `Utils.CleanupOldFiles` | utils.py:108-132 | every selected file is attempted: the removed and failed paths together are exactly the selected paths, a failure does not stop the loop, and nothing happens for a missing directory |
| `Detector.CalculateEar` | drowsiness_detector.py:85-94 | with distinct corners the EAR is finite, non-negative and satisfies EAR · 2C = A + B; with coinciding corners it is +inf or NaN, NaN exactly when all distances are zero |
| `Detector.Initial` | drowsiness_detector.py:26-35 | the field values `__init__` sets; its property is `Detector.InitialConsistent` |
| `Detector.HandleDetection` | drowsiness_detector.py:183-203 | the state after the dispatcher; its contract is `DetectorProperties.ChannelsDecidedIndependently` and `Detector.HandleDetectionConsistent` |
| `Detector.FaceStep` | drowsiness_detector.py:146-164 | the state after one face; its contract is `DetectorProperties.OpenEyesReset`, `DetectorProperties.OnsetExactlyAtThreshold` and `Detector.FaceStepConsistent` |
| `Detector.FrameStep` | drowsiness_detector.py:126-164 | the state after the faces of one frame, in order; its contract is `DetectorProperties.ClosedRunFiresOnce`, `DetectorProperties.LastFaceDecides`, `DetectorProperties.NoFaceNoChange`, `DetectorProperties.FrameStepMonotone` and `Detector.FrameStepConsistent` |
| `Detector.RunLoop` | drowsiness_detector.py:214-231 | the state after the frame loop over a script; its contract is `DetectorProperties.RunLoopCountsFrames`, `DetectorProperties.OnlyStopClearsRunning` and `Detector.RunLoopConsistent` |
| `Detector.DegenerateEyeNeverLow` | drowsiness_detector.py:133-147 | a face with a degenerate eye never counts as a closed-eye reading |
| `Detector.WellFormedFaceEar` | drowsiness_detector.py:133-136 | with both eyes well formed the face's EAR is finite and non-negative |
| `Detector.InitialConsistent` | drowsiness_detector.py:26-35 | the freshly constructed state satisfies the invariant |
| `Detector.HandleDetectionConsistent` | drowsiness_detector.py:183-203 | dispatch after a counted onset keeps at most one dispatch per onset per channel and keeps both cooldown logs valid |
| `Detector.FaceStepConsistent` | drowsiness_detector.py:146-164 | one face keeps the invariant: drowsy only at or above the threshold (exactly then for a threshold ≥ 1), non-negative counters, cooldowns respected |
| `Detector.FrameStepConsistent` | drowsiness_detector.py:126-164 | a whole frame keeps the invariant |
| `Detector.RunLoopConsistent` | drowsiness_detector.py:214-231 | every state the detection loop reaches keeps the invariant |
| `Detector.FramesProcessed` | drowsiness_detector.py:214-231 | the loop processes a run of successful reads with no earlier quit or stop, and ends at a failed read when neither quit nor stop ended it |
| `Detector.DrowsinessDetector.constructor` | drowsiness_detector.py:18-35 | not drowsy, all counters zero, both alert times 0, not running, session started now; the invariant holds |
| `Detector.DrowsinessDetector.HandleDrowsinessDetection` | drowsiness_detector.py:183-203 | the new fields are those of `HandleDetection` on the old ones |
| `Detector.DrowsinessDetector.ProcessFrame` | drowsiness_detector.py:118-164 | the per-face loop leaves the fields equal to `FrameStep` of the old ones, and keeps the invariant |
| `Detector.DrowsinessDetector.StartDetection` | drowsiness_detector.py:205-242 | returns false and changes nothing without a camera; otherwise sets `running` and ends in the state `RunLoop` gives; keeps the invariant |
| `Detector.DrowsinessDetector.StopDetection` | drowsiness_detector.py:244-246 | clears `running` and nothing else |
| `Detector.DrowsinessDetector.GetStatistics` | drowsiness_detector.py:255-264 | status is "Drowsy" iff the flag is up and "Alert" otherwise; fps · max(session time, 1) = total frames, so 0 ≤ fps ≤ total frames |
| `DetectorProperties.DrowsyIffCounterAtThreshold` | drowsiness_detector.py:147-164 | for a threshold ≥ 1, in every consistent state the flag is up iff the counter is at the threshold or above |
| `DetectorProperties.OpenEyesReset` | drowsiness_detector.py:162-164 | an open-eye face sets the counter to 0 and clears the flag from any state, and dispatches nothing |
| `DetectorProperties.OnsetExactlyAtThreshold` | drowsiness_detector.py:147-154 | a closed-eye face adds exactly 1; the detection count rises and the dispatcher runs exactly when the counter reaches the threshold, otherwise nothing else changes |
| `DetectorProperties.NoFaceNoChange` | drowsiness_detector.py:121-126 | a frame with no face leaves the state unchanged |
| `DetectorProperties.LastFaceDecides` | drowsiness_detector.py:126-164 | when the last face of a frame has open eyes the frame ends with counter 0 and no flag |
| `DetectorProperties.ClosedRunFiresOnce` | drowsiness_detector.py:126-154 | k closed-eye faces add k to the counter and raise exactly one onset if they bring a non-drowsy detector to the threshold, none otherwise |
| `DetectorProperties.FrameStepMonotone` | drowsiness_detector.py:126-164 | a frame never lowers the detection count, only appends to the dispatch logs, and leaves frame count and `running` alone |
| `DetectorProperties.ChannelsDecidedIndependently` | drowsiness_detector.py:188-203 | each channel fires iff strictly more than its cooldown has elapsed and then records now; a channel that does not fire keeps its time; nothing else changes |
| `DetectorProperties.CooldownsIndependent` | drowsiness_detector.py:188-203 | with cooldowns 5 s and 60 s, two onsets 10 s apart sound two audio alerts and send one e-mail |
| `DetectorProperties.AlertsRespectCooldowns` | drowsiness_detector.py:183-231 | in any run, consecutive dispatches on a channel are more than its cooldown apart |
| `DetectorProperties.RunLoopCountsFrames` | drowsiness_detector.py:214-223 | the frame count rises by exactly the number of frames read and processed, not for a failed read; detections never decrease and dispatch logs only grow |
| `DetectorProperties.StopWithinOneFrame` | drowsiness_detector.py:214-246 | a stop request after frame k ends the loop before frame k + 2 is read |
| `DetectorProperties.OnlyStopClearsRunning` | drowsiness_detector.py:214-231 | without a stop request the loop may end, by a failed read or 'q', but `running` stays set |
| `DetectorProperties.WorkedRun` | drowsiness_detector.py:146-164 | threshold 0.25 over 3 frames with EARs 0.30, 0.20, 0.18, 0.19, 0.30: onset on the fourth frame, cleared on the fifth |

## Left out

- Face detection, landmark prediction and landmark extraction, frame annotation, camera opening with its index fallback, window display, key handling other than 'q', and screenshots (drowsiness_detector.py:40-83, 96-116, 138-144, 166-179, 225-237). These are foreign library calls and pixel I/O. A frame is its list of faces, and camera opening is a boolean.
- The e-mail branch's snapshot file (name from `int(now)`, `imwrite`) is not modelled. An e-mail dispatch is recorded as its time only.
- Floating-point arithmetic is not modelled. Distances, EARs, times and fps are exact reals. Only the two IEEE outcomes of dividing by a zero corner distance are kept, because they decide whether a reading counts as closed.
- Threads are not modelled: the alert threads, `stop_detection` from the web thread, and the web stream calling `process_frame` concurrently with the main loop. A stop request takes effect at the next check of `running`.
- `update_config` changing thresholds at run time is not modelled. The settings are fixed for a detector.
- `audio_alert.py`, `email_notifier.py`, `web_interface.py` and `main.py` are not part of this model.
- The exception handlers around the detection loop and around the whole of `cleanup_old_files` are not modelled. Neither is `cleanup()`'s camera release.
- Each frame has one clock reading. The source reads the clock again in every dispatcher call.
- The rest of `utils.py` (downloads, hashing, system information, logging, dependency and camera checks) is not modelled. Neither are the glob and mtime calls around the retention rule.
- `Utils.FormatDuration`: modelled for integer seconds only. Float input is not modelled. For a non-negative float it prints the same as its integer part.
- `Utils.SortByMtime`: stability is not stated. Python's sort keeps equal-time files in glob order. The model's insertion sort does the same, but no lemma says so.
