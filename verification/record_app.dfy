/**
 * `RecorderApp` (`src/app/record.py`): where the recording goes and what is set up for
 * it. A bare file name is placed under "recordings"; the path is resolved; the directory
 * to ensure is the path's parent when it names a file (it has a suffix) and the path
 * itself otherwise; the recorder is opened at once; and `close` closes the recorder
 * before the base application shuts down. Path resolution, the existence test and the
 * clock are inputs.
 */
module RecordApp {
  import opened Wrappers
  import Numeric
  import Paths
  import Recorder
  import AudioAppConfig
  import DeviceConfig

  const RecordingsDirectory: string := "recordings"
  const DefaultOutputFile: string := "recordings/recording.wav"

  /** The output path before resolution. */
  function OutputPath(outputFile: string): (p: Paths.PurePath)
    ensures Paths.Valid(p)
    ensures |Paths.Parts(Paths.Parse(outputFile))| != 1 ==> p == Paths.Parse(outputFile)
  {
    var given := Paths.Parse(outputFile);
    if |Paths.Parts(given)| == 1 then Paths.Div(Paths.Parse(RecordingsDirectory), Paths.Str(given))
    else given
  }

  /** The directory that must exist: the parent of a file path, or the path itself. */
  function TargetDir(p: Paths.PurePath): (d: Paths.PurePath)
    ensures Paths.Suffix(p) != [] ==> d == Paths.Parent(p)
    ensures Paths.Suffix(p) == [] ==> d == p
  {
    if Paths.Suffix(p) != [] then Paths.Parent(p) else p
  }

  lemma ParseName(n: string)
    requires Paths.IsName(n)
    ensures Paths.Parse(n) == Paths.PurePath("", [n])
    ensures Paths.Str(Paths.PurePath("", [n])) == n
  {
    var q := Paths.PurePath("", [n]);
    assert Paths.Valid(q);
    assert Paths.JoinSlash([n]) == n;
    Paths.ParseStr(q);
  }

  /** A bare file name is placed in the "recordings" directory. */
  lemma BareNameGoesUnderRecordings(n: string)
    requires Paths.IsName(n)
    ensures OutputPath(n) == Paths.PurePath("", ["recordings", n])
  {
    ParseName(n);
    ParseName(RecordingsDirectory);
    Paths.DivName(Paths.PurePath("", ["recordings"]), n);
  }

  /** A path of more than one component is kept as written. */
  lemma LongerPathKept(a: string, b: string)
    requires Paths.IsName(a) && Paths.IsName(b)
    ensures OutputPath(a + "/" + b) == Paths.PurePath("", [a, b])
  {
    ParseName(a);
    Paths.DivName(Paths.PurePath("", [a]), b);
    assert Paths.Join(a, b) == a + "/" + b;
  }

  /** What the constructor sets up. */
  datatype RecorderApp = RecorderApp(
    outputPath: Paths.PurePath,         // resolved
    targetDir: Paths.PurePath,
    createdDir: bool,                   // `mkdir` was called
    device: DeviceConfig.AudioDeviceConfig,
    recorder: Recorder.Recorder,
    calibrated: bool)                   // the calibrator adapter is the pipeline's processor

  /** The recorder's `open` failed: the constructor raises. */
  datatype StartError = OpenFailed

  /**
   * `RecorderApp.__init__`. `resolve` is `Path.resolve`, `isDir` the existence test,
   * `stamp` the clock reading the first file is named after, `created` whether the file
   * system lets it be created.
   */
  function NewRecorderApp(config: AudioAppConfig.AppConfig, outputFile: string,
                          resolve: Paths.PurePath -> Paths.PurePath, isDir: Paths.PurePath -> bool,
                          stamp: string, created: bool): (r: Result<RecorderApp, StartError>)
    ensures var out := resolve(OutputPath(outputFile));
            r.Success? ==>
              r.value.outputPath == out && r.value.targetDir == TargetDir(out) &&
              (r.value.createdDir <==> !isDir(TargetDir(out))) &&
              r.value.device.id == config.device.id && r.value.device.highPriority &&
              r.value.device.sampleRate == config.sampleRate &&
              r.value.device.bufferSeconds == config.bufferSeconds &&
              r.value.recorder.basePath == out &&
              r.value.recorder.channels == 1 && r.value.recorder.sampleWidth == 2 &&
              r.value.recorder.sampleRate == Numeric.Trunc(config.sampleRate) &&
              r.value.recorder.isOpen && Recorder.Inv(r.value.recorder) &&
              r.value.recorder.current == Some(Recorder.GenerateFilename(out, stamp)) &&
              (r.value.calibrated <==> config.calibration.Some?)
    ensures r.Failure? <==> !(created && Numeric.Trunc(config.sampleRate) > 0)
  {
    var out := resolve(OutputPath(outputFile));
    var target := TargetDir(out);
    var device := DeviceConfig.NewConfig(config.device, config.sampleRate, config.bufferSeconds, true,
                                         DeviceConfig.DefaultDtype);
    var rec := Recorder.NewRecorder(out, Numeric.Trunc(device.sampleRate), 1, 2, Recorder.RotationDefaultSeconds);
    var started := Recorder.Open(rec, stamp, created);
    if started.1 then Failure(OpenFailed)
    else Success(RecorderApp(out, target, !isDir(target), device, started.0, config.calibration.Some?))
  }

  /**
   * The first recording file is written into the directory the constructor made sure
   * of, for every resolved output path and every clock reading that fits in a name.
   */
  lemma RecordingLandsInTargetDir(config: AudioAppConfig.AppConfig, outputFile: string,
                                  resolve: Paths.PurePath -> Paths.PurePath, isDir: Paths.PurePath -> bool,
                                  stamp: string, created: bool)
    requires NewRecorderApp(config, outputFile, resolve, isDir, stamp, created).Success?
    requires Paths.Valid(resolve(OutputPath(outputFile)))
    requires Paths.NoChar(stamp, '/') && Paths.NoChar(stamp, '.')
    ensures var app := NewRecorderApp(config, outputFile, resolve, isDir, stamp, created).value;
            Paths.Parent(app.recorder.current.value) == app.targetDir
  {
    var out := resolve(OutputPath(outputFile));
    if Paths.Suffix(out) != [] {
      Recorder.FilenameBesideBase(out, stamp);
    } else {
      Recorder.FilenameInsideBase(out, stamp);
    }
  }

  // ---------------------------------------------------------------- close

  datatype Action = CloseRecorder | BaseShutdown

  /** `close`: the recorder first, then the base application's shutdown. */
  function CloseApp(app: RecorderApp): (r: (Recorder.Recorder, seq<Action>))
    requires Recorder.Inv(app.recorder)
    ensures r.1 == [CloseRecorder, BaseShutdown]
    ensures !r.0.isOpen && r.0.current.None? && Recorder.Inv(r.0)
    ensures r.0.segments == app.recorder.segments
  {
    (Recorder.Close(app.recorder), [CloseRecorder, BaseShutdown])
  }
}
