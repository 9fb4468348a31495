/**
 * `AppArgs.validate_args` of `py_umik`: the calibration file is taken from the argument,
 * else from the `CALIBRATION_FILE` environment variable unless `--default` is set; with a
 * calibration file and no device a device named "UMIK-1" is looked for; the buffer is
 * rounded as the settings say; `--default` selects the system default device; and
 * calibration is enabled exactly when a calibration file is present.
 *
 * The environment variable, the result of the name search, the hardware selector and
 * the contents of files are inputs (`Host`).
 */
module CoreConfig {
  import opened Wrappers
  import Text
  import BufferRounding
  import DeviceSelector
  import CalibrationFile
  import AudioAppConfig

  /** The audio settings the validator reads, with their defaults. */
  datatype AudioSettings = AudioSettings(minBufferSeconds: real, lufsWindowSeconds: real)

  const DefaultSettings: AudioSettings := AudioSettings(3.0, 3.0)

  /** The parsed command line. */
  datatype Args = Args(
    deviceId: Option<int>,
    useDefault: bool,
    bufferSeconds: real,
    sampleRate: real,
    calibrationFile: Option<string>,
    numTaps: int)

  /**
   * What the validator asks of its surroundings: `CALIBRATION_FILE`, the index a device
   * named "UMIK-1" was found at, the selector for a target index, and the contents of
   * the file at a path.
   */
  datatype Host = Host(
    envCalibrationFile: Option<string>,
    umikId: Option<int>,
    select: Option<int> -> Result<DeviceSelector.Selected, DeviceSelector.SelectError>,
    read: string -> CalibrationFile.FileContents)

  /** Step 1: the argument wins; the environment is consulted only without `--default`. */
  function ResolveCalibrationFile(args: Args, env: Option<string>): (r: Option<string>)
    ensures args.calibrationFile.Some? ==> r == args.calibrationFile
    ensures args.calibrationFile.None? && args.useDefault ==> r.None?
    ensures args.calibrationFile.None? && !args.useDefault && Text.Truthy(env) ==> r == env
    ensures Text.Truthy(r) <==>
              Text.Truthy(args.calibrationFile) ||
              (args.calibrationFile.None? && !args.useDefault && Text.Truthy(env))
  {
    if args.calibrationFile.None? && !args.useDefault && Text.Truthy(env) then env
    else args.calibrationFile
  }

  /** Whether the "UMIK-1" search runs. */
  predicate SearchesUmik(args: Args, calibrationFile: Option<string>) {
    Text.Truthy(calibrationFile) && args.deviceId.None? && !args.useDefault
  }

  /** Step 2: the device id after the search; a failed search leaves it unset. */
  function DetectDevice(args: Args, calibrationFile: Option<string>, umikId: Option<int>): (r: Option<int>)
    ensures SearchesUmik(args, calibrationFile) ==> r == umikId
    ensures !SearchesUmik(args, calibrationFile) ==> r == args.deviceId
  {
    if SearchesUmik(args, calibrationFile) && umikId.Some? then umikId else args.deviceId
  }

  /** Step 4: the index handed to the selector; `--default` forces none. */
  function TargetId(args: Args, deviceId: Option<int>): (r: Option<int>)
    ensures args.useDefault ==> r.None?
    ensures !args.useDefault ==> r == deviceId
  {
    if args.useDefault then None else deviceId
  }

  /** The selector `validate_args` ends up calling, and what it returns. */
  function Selection(args: Args, host: Host): Result<DeviceSelector.Selected, DeviceSelector.SelectError> {
    var file := ResolveCalibrationFile(args, host.envCalibrationFile);
    host.select(TargetId(args, DetectDevice(args, file, host.umikId)))
  }

  /**
   * `validate_args`. A selector that reports the device missing ends the program with
   * status 1; its other errors and those of reading the sensitivity propagate.
   */
  function ValidateArgs(args: Args, settings: AudioSettings, host: Host)
    : (r: Result<AudioAppConfig.AppConfig, AudioAppConfig.ConfigError>)
    requires settings.lufsWindowSeconds > 0.0
    ensures var sel := Selection(args, host);
            sel.Failure? ==> r == Failure(AudioAppConfig.SelectionError(sel.error))
    ensures var sel := Selection(args, host);
            r.Success? ==>
              sel.Success? && r.value.device == sel.value &&
              r.value.bufferSeconds ==
                BufferRounding.RoundBuffer(args.bufferSeconds, settings.minBufferSeconds, settings.lufsWindowSeconds)
    ensures var file := ResolveCalibrationFile(args, host.envCalibrationFile);
            r.Success? ==> (r.value.calibration.Some? <==> Text.Truthy(file))
    ensures r.Success? && r.value.calibration.None? ==> r.value.sampleRate == args.sampleRate
    ensures var file := ResolveCalibrationFile(args, host.envCalibrationFile);
            r.Success? && r.value.calibration.Some? ==>
              r.value.calibration.value.path == file.value &&
              r.value.calibration.value.numTaps == args.numTaps &&
              r.value.sampleRate == r.value.calibration.value.sampleRate &&
              r.value.sampleRate == AudioAppConfig.CalibrationRate(r.value.device.nativeRate, args.sampleRate) &&
              CalibrationFile.GetSensitivityValues(host.read(file.value)).Success? &&
              (r.value.calibration.value.sensitivityDbfs, r.value.calibration.value.referenceDbspl) ==
                CalibrationFile.GetSensitivityValues(host.read(file.value)).value
    ensures var file := ResolveCalibrationFile(args, host.envCalibrationFile);
            r.Failure? <==>
              Selection(args, host).Failure? ||
              (Text.Truthy(file) && CalibrationFile.GetSensitivityValues(host.read(file.value)).Failure?)
    ensures r.Failure? ==> !r.error.CalibrationFileRequired?
  {
    var file := ResolveCalibrationFile(args, host.envCalibrationFile);
    var buffer := BufferRounding.RoundBuffer(args.bufferSeconds, settings.minBufferSeconds, settings.lufsWindowSeconds);
    match Selection(args, host)
    case Failure(e) => Failure(AudioAppConfig.SelectionError(e))
    case Success(device) =>
      if Text.Truthy(file) then
        var setup :- AudioAppConfig.Calibrate(file.value, device, args.sampleRate, args.numTaps, host.read(file.value));
        Success(AudioAppConfig.AppConfig(device, setup.sampleRate, buffer, Some(setup)))
      else
        Success(AudioAppConfig.AppConfig(device, args.sampleRate, buffer, None))
  }

  // ---------------------------------------------------------------- precedence

  /**
   * Under `--default` neither the environment variable, nor the name search, nor a
   * device id given on the command line has any effect: the system default is selected.
   */
  lemma DefaultIgnoresEnvironmentAndDevice(args: Args, settings: AudioSettings, host: Host,
                                           env: Option<string>, umik: Option<int>, device: Option<int>)
    requires settings.lufsWindowSeconds > 0.0
    requires args.useDefault
    ensures ValidateArgs(args, settings, host) ==
            ValidateArgs(args.(deviceId := device), settings, host.(envCalibrationFile := env, umikId := umik))
    ensures Selection(args, host) == host.select(None)
  {
    var args2 := args.(deviceId := device);
    var host2 := host.(envCalibrationFile := env, umikId := umik);
    assert ResolveCalibrationFile(args, host.envCalibrationFile) == ResolveCalibrationFile(args2, env);
    assert Selection(args, host) == Selection(args2, host2);
  }

  /** A calibration file on the command line wins over the environment variable. */
  lemma ExplicitFileWinsOverEnvironment(args: Args, settings: AudioSettings, host: Host, env: Option<string>)
    requires settings.lufsWindowSeconds > 0.0
    requires args.calibrationFile.Some?
    ensures ValidateArgs(args, settings, host) == ValidateArgs(args, settings, host.(envCalibrationFile := env))
  {
    var host2 := host.(envCalibrationFile := env);
    assert ResolveCalibrationFile(args, host.envCalibrationFile) == ResolveCalibrationFile(args, env);
    assert Selection(args, host) == Selection(args, host2);
  }

  /**
   * The name search matters only when a calibration file is active, no device id was
   * given and `--default` is not set; otherwise its result is never used.
   */
  lemma UmikSearchOnlyWhenCalibrating(args: Args, settings: AudioSettings, host: Host, umik: Option<int>)
    requires settings.lufsWindowSeconds > 0.0
    requires !SearchesUmik(args, ResolveCalibrationFile(args, host.envCalibrationFile))
    ensures ValidateArgs(args, settings, host) == ValidateArgs(args, settings, host.(umikId := umik))
  {
    assert Selection(args, host) == Selection(args, host.(umikId := umik));
  }

  /** When the search runs and finds the device, that device is the one selected. */
  lemma UmikFoundIsSelected(args: Args, host: Host, id: int)
    requires SearchesUmik(args, ResolveCalibrationFile(args, host.envCalibrationFile))
    requires host.umikId == Some(id)
    ensures Selection(args, host) == host.select(Some(id))
  {
  }

  // ---------------------------------------------------------------- examples

  /** Requests of 1 s and 4 s become 3 s and 6 s with the default settings. */
  lemma BufferExamples(args: Args, host: Host)
    requires host.envCalibrationFile.None? && args.calibrationFile.None?
    requires Selection(args, host).Success?
    ensures ValidateArgs(args.(bufferSeconds := 1.0), DefaultSettings, host).value.bufferSeconds == 3.0
    ensures ValidateArgs(args.(bufferSeconds := 4.0), DefaultSettings, host).value.bufferSeconds == 6.0
  {
    BufferRounding.RoundingExamples();
    assert Selection(args.(bufferSeconds := 1.0), host) == Selection(args, host);
    assert Selection(args.(bufferSeconds := 4.0), host) == Selection(args, host);
  }

  /**
   * A non-default device at native 48 kHz, asked for 44.1 kHz with a calibration file
   * and 512 taps: calibration is on at 48 kHz with the file's sensitivity.
   */
  lemma CalibrationUsesNativeRate(host: Host, device: DeviceSelector.Selected)
    requires device.nativeRate == 48000.0 && !device.isDefault
    requires forall t :: host.select(t) == Success(device)
    requires CalibrationFile.GetSensitivityValues(host.read("/path/to/cal.txt")) == Success((-18.0, 94.0))
    ensures var r := ValidateArgs(Args(Some(99), false, 6.0, 44100.0, Some("/path/to/cal.txt"), 512), DefaultSettings, host);
            r.Success? && r.value.sampleRate == 48000.0 && r.value.calibration.Some? &&
            r.value.calibration.value.sensitivityDbfs == -18.0 && r.value.calibration.value.numTaps == 512
  {
    var args := Args(Some(99), false, 6.0, 44100.0, Some("/path/to/cal.txt"), 512);
    assert Selection(args, host) == Success(device);
  }

  /**
   * Without a calibration file (argument or environment) a non-default device is used
   * uncalibrated at the requested rate.
   */
  lemma NoCalibrationKeepsRequestedRate(host: Host, device: DeviceSelector.Selected)
    requires host.envCalibrationFile.None?
    requires !device.isDefault && device.id == 1
    requires forall t :: host.select(t) == Success(device)
    ensures var r := ValidateArgs(Args(Some(99), false, 6.0, 48000.0, None, 1024), DefaultSettings, host);
            r.Success? && r.value.calibration.None? && r.value.device.id == 1 && r.value.sampleRate == 48000.0
  {
    var args := Args(Some(99), false, 6.0, 48000.0, None, 1024);
    assert Selection(args, host) == Success(device);
  }
}
