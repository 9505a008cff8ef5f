/**
 * The detector's configuration (config.py): the shipped constants, the
 * environment-driven e-mail credentials, and the three status checks
 * `validate_config`, `get_email_config_status` and `get_audio_config_status`.
 * The module-level globals become a `Settings` value so that the checks can
 * be stated for every configuration, not only the shipped one.
 */
module Config {
  import opened Wrappers

  const EarThreshold: real := 0.25
  const DrowsinessFramesThreshold: int := 20
  const AudioAlertCooldown: real := 5.0
  const EmailAlertCooldown: real := 60.0

  /** The audio files tried in order of preference. */
  const AudioAlertPaths: seq<string> := [
    @"C:\Users\RAGAVI\Downloads\beep-warning-6387.mp3",
    "assets/alert.mp3",
    "assets/alert.wav",
    "sounds/beep.mp3",
    "sounds/beep.wav"
  ]

  datatype Settings = Settings(
    earThreshold: real,
    framesThreshold: int,
    audioAlertPaths: seq<string>,
    audioAlertCooldown: real,
    senderEmail: string,
    senderPassword: string,
    receiverEmail: string,
    emailAlertCooldown: real)

  /** `os.getenv(key, default)` over an explicit environment. */
  function GetEnv(env: map<string, string>, key: string, default: string): string
  {
    if key in env then env[key] else default
  }

  /** The configuration the module sets up on import, for a given environment. */
  function Load(env: map<string, string>): Settings
  {
    Settings(
      EarThreshold,
      DrowsinessFramesThreshold,
      AudioAlertPaths,
      AudioAlertCooldown,
      GetEnv(env, "SENDER_EMAIL", ""),
      GetEnv(env, "SENDER_PASSWORD", ""),
      GetEnv(env, "RECEIVER_EMAIL", ""),
      EmailAlertCooldown)
  }

  /** The issues `validate_config` can report, in the order it checks them. */
  datatype Issue = EarThresholdOutOfRange | FramesThresholdTooLow | EmailIncomplete
  {
    function Message(): string
    {
      match this
      case EarThresholdOutOfRange => "EAR_THRESHOLD must be between 0 and 1"
      case FramesThresholdTooLow => "DROWSINESS_FRAMES_THRESHOLD must be at least 1"
      case EmailIncomplete => "Email configuration incomplete - email alerts will be disabled"
    }

    /** Position of the check that reports this issue. */
    function Rank(): nat
    {
      match this
      case EarThresholdOutOfRange => 0
      case FramesThresholdTooLow => 1
      case EmailIncomplete => 2
    }
  }

  /**
   * The issue list, built check by check: the EAR threshold must lie in the
   * open interval (0, 1), the frame threshold must be at least 1, and both
   * e-mail addresses must be set (the password is not looked at).
   */
  function ValidateConfig(c: Settings): (issues: seq<Issue>)
    ensures EarThresholdOutOfRange in issues <==> !(0.0 < c.earThreshold < 1.0)
    ensures FramesThresholdTooLow in issues <==> c.framesThreshold < 1
    ensures EmailIncomplete in issues <==> (c.senderEmail == "" || c.receiverEmail == "")
    ensures forall i, j :: 0 <= i < j < |issues| ==> issues[i].Rank() < issues[j].Rank()
    ensures |issues| <= 3
    ensures issues == [] <==>
      0.0 < c.earThreshold < 1.0 && c.framesThreshold >= 1 && c.senderEmail != "" && c.receiverEmail != ""
  {
    var ear := if c.earThreshold <= 0.0 || c.earThreshold >= 1.0 then [EarThresholdOutOfRange] else [];
    var frames := if c.framesThreshold < 1 then [FramesThresholdTooLow] else [];
    var email := if c.senderEmail == "" || c.receiverEmail == "" then [EmailIncomplete] else [];
    ear + frames + email
  }

  /** True when sender, password and receiver are all non-empty. */
  function EmailConfigStatus(c: Settings): bool
  {
    c.senderEmail != "" && c.senderPassword != "" && c.receiverEmail != ""
  }

  /** A path `get_audio_config_status` accepts: non-empty and present on disk. */
  predicate Playable(path: string, pathExists: string -> bool)
  {
    path != "" && pathExists(path)
  }

  /** Index of the first playable path, or `|paths|` when there is none. */
  function FirstPlayable(paths: seq<string>, pathExists: string -> bool): (k: nat)
    ensures k <= |paths|
    ensures forall j :: 0 <= j < k ==> !Playable(paths[j], pathExists)
    ensures k < |paths| ==> Playable(paths[k], pathExists)
    decreases |paths|
  {
    if paths == [] then 0
    else if Playable(paths[0], pathExists) then 0
    else 1 + FirstPlayable(paths[1..], pathExists)
  }

  /**
   * `(True, p)` for the first playable `p` in the configured order,
   * `(False, None)` when no configured path is playable.
   */
  function AudioConfigStatus(c: Settings, pathExists: string -> bool): (r: (bool, Option<string>))
    ensures r.0 <==> exists k :: 0 <= k < |c.audioAlertPaths| && Playable(c.audioAlertPaths[k], pathExists)
    ensures !r.0 ==> r.1 == None
    ensures r.0 ==> exists k :: (0 <= k < |c.audioAlertPaths| && r.1 == Some(c.audioAlertPaths[k])
                                 && Playable(c.audioAlertPaths[k], pathExists)
                                 && forall j :: 0 <= j < k ==> !Playable(c.audioAlertPaths[j], pathExists))
  {
    var k := FirstPlayable(c.audioAlertPaths, pathExists);
    if k < |c.audioAlertPaths| then (true, Some(c.audioAlertPaths[k])) else (false, None)
  }

  /** Complete e-mail credentials imply that validation raises no e-mail issue. */
  lemma EmailStatusImpliesNoEmailIssue(c: Settings)
    requires EmailConfigStatus(c)
    ensures EmailIncomplete !in ValidateConfig(c)
  {
  }

  /**
   * The converse fails: validation ignores the password, so a configuration
   * with both addresses and no password passes validation while e-mail
   * alerts stay disabled.
   */
  lemma PasswordIsNotValidated(c: Settings)
    requires c.senderEmail != "" && c.receiverEmail != "" && c.senderPassword == ""
    ensures EmailIncomplete !in ValidateConfig(c)
    ensures !EmailConfigStatus(c)
  {
  }

  /**
   * Whatever the environment, the shipped thresholds pass validation, and
   * the only possible issue is incomplete e-mail settings.
   */
  lemma ShippedDefaultsAreValid(env: map<string, string>)
    ensures ValidateConfig(Load(env)) ==
      if GetEnv(env, "SENDER_EMAIL", "") == "" || GetEnv(env, "RECEIVER_EMAIL", "") == ""
      then [EmailIncomplete] else []
  {
  }
}
