/**
 * `AudioAppArgs.validate_args`: from the parsed arguments to the configuration an audio
 * application starts with. The buffer is rounded, the device selected, and calibration
 * enabled exactly when the selected device is not the system default, in which case a
 * calibration file is required. The device query and the file system are inputs.
 */
module AudioAppConfig {
  import opened Wrappers
  import Text
  import BufferRounding
  import DeviceSelector
  import CalibrationFile

  const DefaultBufferSeconds: real := 6.0
  const MinimumBufferSeconds: real := 3.0
  const DefaultSampleRate: real := 48000.0
  const DefaultNumTaps: int := 1024
  /** The short-term LUFS window buffers are rounded to. */
  const LufsAggregationSeconds: real := 3.0

  const CalibrationRequiredMessage: string := "Calibration file required for specified device."

  /** The parsed command line. */
  datatype Args = Args(
    deviceId: Option<int>,
    bufferSeconds: real,
    sampleRate: real,
    calibrationFile: Option<string>,
    numTaps: int)

  /** The arguments when nothing is given on the command line. */
  function DefaultArgs(): (a: Args)
    ensures a.deviceId.None? && a.calibrationFile.None?
    ensures a.bufferSeconds == 6.0 && a.sampleRate == 48000.0 && a.numTaps == 1024
  {
    Args(None, DefaultBufferSeconds, DefaultSampleRate, None, DefaultNumTaps)
  }

  /**
   * The calibration part of the configuration, set all together or not at all: the
   * calibrator is constructed from `path` at `sampleRate` with `numTaps` taps, and the
   * sensitivity pair is read from the same file.
   */
  datatype CalibrationSetup = CalibrationSetup(
    path: string,
    sampleRate: real,
    numTaps: int,
    sensitivityDbfs: real,
    referenceDbspl: real)

  datatype AppConfig = AppConfig(
    device: DeviceSelector.Selected,
    sampleRate: real,
    bufferSeconds: real,
    calibration: Option<CalibrationSetup>)

  datatype ConfigError =
    | DeviceNotFound                      // the selector exits with status 1
    | SelectionRaised                     // any other selector error, re-raised
    | CalibrationFileRequired             // `ValueError`, a non-default device without a file
    | SensitivityFailed(e: CalibrationFile.SensitivityError)

  function SelectionError(e: DeviceSelector.SelectError): (r: ConfigError)
    ensures r == DeviceNotFound <==> e == DeviceSelector.NotFound
    ensures r.DeviceNotFound? || r.SelectionRaised?
  {
    match e
    case NotFound => DeviceNotFound
    case Raised => SelectionRaised
  }

  /**
   * The rate used when calibrating: the device's native rate when it is positive, and
   * the requested rate otherwise (the error is logged and the request kept).
   */
  function CalibrationRate(nativeRate: real, requested: real): (r: real)
    ensures nativeRate > 0.0 ==> r == nativeRate
    ensures nativeRate <= 0.0 ==> r == requested
    ensures r == nativeRate || r == requested
  {
    if nativeRate > 0.0 then nativeRate else requested
  }

  /**
   * The calibration branch shared by both validators: the rate, then the sensitivity
   * values (whose errors propagate), then the setup.
   */
  function Calibrate(path: string, device: DeviceSelector.Selected, requestedRate: real, numTaps: int,
                     file: CalibrationFile.FileContents): (r: Result<CalibrationSetup, ConfigError>)
    ensures r.Success? <==> CalibrationFile.GetSensitivityValues(file).Success?
    ensures r.Failure? ==> r.error == SensitivityFailed(CalibrationFile.GetSensitivityValues(file).error)
    ensures r.Success? ==>
              r.value.path == path && r.value.numTaps == numTaps &&
              r.value.sampleRate == CalibrationRate(device.nativeRate, requestedRate) &&
              (r.value.sensitivityDbfs, r.value.referenceDbspl) == CalibrationFile.GetSensitivityValues(file).value
  {
    var rate := CalibrationRate(device.nativeRate, requestedRate);
    match CalibrationFile.GetSensitivityValues(file)
    case Failure(e) => Failure(SensitivityFailed(e))
    case Success(sens) => Success(CalibrationSetup(path, rate, numTaps, sens.0, sens.1))
  }

  /** `validate_args`; `read` gives the contents of the file at a path. */
  function ValidateArgs(args: Args, query: DeviceSelector.Query, read: string -> CalibrationFile.FileContents)
    : (r: Result<AppConfig, ConfigError>)
    ensures var sel := DeviceSelector.Select(query, args.deviceId);
            sel.Failure? ==> r == Failure(SelectionError(sel.error))
    ensures var sel := DeviceSelector.Select(query, args.deviceId);
            sel.Success? && !sel.value.isDefault && !Text.Truthy(args.calibrationFile) ==>
              r == Failure(CalibrationFileRequired)
    ensures var sel := DeviceSelector.Select(query, args.deviceId);
            r.Success? ==>
              sel.Success? && r.value.device == sel.value &&
              r.value.bufferSeconds == BufferRounding.RoundBuffer(args.bufferSeconds, MinimumBufferSeconds, LufsAggregationSeconds) &&
              (r.value.calibration.Some? <==> !sel.value.isDefault)
    ensures r.Success? && r.value.calibration.None? ==> r.value.sampleRate == args.sampleRate
    ensures r.Success? && r.value.calibration.Some? ==>
              Text.Truthy(args.calibrationFile) &&
              r.value.calibration.value.path == args.calibrationFile.value &&
              r.value.calibration.value.numTaps == args.numTaps &&
              r.value.sampleRate == r.value.calibration.value.sampleRate &&
              r.value.sampleRate == CalibrationRate(r.value.device.nativeRate, args.sampleRate) &&
              CalibrationFile.GetSensitivityValues(read(args.calibrationFile.value)).Success? &&
              (r.value.calibration.value.sensitivityDbfs, r.value.calibration.value.referenceDbspl) ==
                CalibrationFile.GetSensitivityValues(read(args.calibrationFile.value)).value
    ensures r.Failure? && r.error.SensitivityFailed? ==>
              Text.Truthy(args.calibrationFile) &&
              CalibrationFile.GetSensitivityValues(read(args.calibrationFile.value)) == Failure(r.error.e)
  {
    var buffer := BufferRounding.RoundBuffer(args.bufferSeconds, MinimumBufferSeconds, LufsAggregationSeconds);
    match DeviceSelector.Select(query, args.deviceId)
    case Failure(e) => Failure(SelectionError(e))
    case Success(device) =>
      if !device.isDefault then
        if !Text.Truthy(args.calibrationFile) then Failure(CalibrationFileRequired)
        else
          var path := args.calibrationFile.value;
          var setup :- Calibrate(path, device, args.sampleRate, args.numTaps, read(path));
          Success(AppConfig(device, setup.sampleRate, buffer, Some(setup)))
      else
        Success(AppConfig(device, args.sampleRate, buffer, None))
  }

  /**
   * With the default device selected, the calibration file is ignored: whatever file is
   * given, or none, the configuration is the same and calibration is off.
   */
  lemma DefaultDeviceIgnoresCalibrationFile(args: Args, query: DeviceSelector.Query,
                                            read: string -> CalibrationFile.FileContents, other: Option<string>)
    requires DeviceSelector.Select(query, args.deviceId).Success?
    requires DeviceSelector.Select(query, args.deviceId).value.isDefault
    ensures ValidateArgs(args, query, read) == ValidateArgs(args.(calibrationFile := other), query, read)
    ensures ValidateArgs(args, query, read).Success? && ValidateArgs(args, query, read).value.calibration.None?
  {
  }

  /**
   * A device other than the default is accepted only with a calibration file whose
   * sensitivity can be read, and then it is always calibrated.
   */
  lemma NonDefaultDeviceIsCalibrated(args: Args, query: DeviceSelector.Query,
                                     read: string -> CalibrationFile.FileContents)
    requires DeviceSelector.Select(query, args.deviceId).Success?
    requires !DeviceSelector.Select(query, args.deviceId).value.isDefault
    ensures ValidateArgs(args, query, read).Success? <==>
              Text.Truthy(args.calibrationFile) &&
              CalibrationFile.GetSensitivityValues(read(args.calibrationFile.value)).Success?
    ensures ValidateArgs(args, query, read).Success? ==> ValidateArgs(args, query, read).value.calibration.Some?
  {
  }

  /** A device that reports no usable native rate is opened at the requested rate. */
  lemma NativeRateFallback(args: Args, query: DeviceSelector.Query, read: string -> CalibrationFile.FileContents)
    requires ValidateArgs(args, query, read).Success?
    requires ValidateArgs(args, query, read).value.device.nativeRate <= 0.0
    ensures ValidateArgs(args, query, read).value.sampleRate == args.sampleRate
  {
  }
}
