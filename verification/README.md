# py-umik-base-app in Dafny

A model of the decision logic of py-umik-base-app. The application reads audio from a
USB measurement microphone (the miniDSP UMIK-1), corrects it with an FIR filter built
from the microphone's calibration file, and reports level metrics (RMS, dBFS, LUFS,
dBSPL, flux). It can also record the audio to rotating WAV files and analyse or enhance
recordings offline.

The model covers these parts:

- **Calibration file.** `CalibrationFile` is the frequency/gain table reader and the "Sens Factor" sensitivity header.
- **Calibrator.** `Calibrator` and `FirFilter` cover:
  - the cache file name;
  - the decision to reuse the cache or redesign;
  - the design grid handed to `firwin2`;
  - streaming FIR application with carried state.
- **Metric arithmetic.** `AudioMetrics` covers the RMS, dBFS and LUFS clamps, dBSPL, flux and the LUFS chunk buffer.
- **Metrics sinks.** `MetricsSink` covers the windowed and immediate metric sinks of both real-time meters and the decibel meter's sink.
- **Pipeline and dispatcher.** `Pipeline` is the ordered processor fold and sink fan-out. `Consumer` is the dispatcher thread's loop over queue events.
- **Capture.** `Capture` is the listener's reconnection watchdog and drop-on-full enqueue.
- **Configuration.** This group covers:
  - device selection and the device listing (`DeviceSelector`);
  - the stream configuration (`DeviceConfig`);
  - buffer rounding (`BufferRounding`);
  - both argument validators (`AudioAppConfig`, `CoreConfig`).
- **Recording.** This group covers:
  - the rotating recorder (`Recorder`);
  - the recorder application's path handling and shutdown order (`RecordApp`);
  - the timestamp formatter (`DatetimeStamp`).
- **Offline tools.** This group covers:
  - PCM normalisation and mono mixing (`Pcm`);
  - the offline metrics analyzer (`MetricsAnalyzer`);
  - the voice enhancer's chunking, naming and peak guard (`EnhanceVoice`).

The modules `Wrappers`, `Numeric`, `Text`, `Paths` and `Blocks` are the model's vocabulary:
- `Option`/`Result`;
- Python's `int()`, `//` and `math.ceil`;
- `str.strip`/`split`, `float()` on decimal text, and zero padding;
- `os.path` and `pathlib` on POSIX paths;
- concatenation of audio blocks.

Samples and levels are mathematical reals. Every DSP primitive is a function-valued parameter of the operation that uses it:
- `sqrt`, `log10`, `10 ** x`;
- `firwin2`;
- librosa's onset envelope;
- the pyloudnorm meter;
- noise reduction and the Butterworth filter.

I/O results are likewise parameters:
- file contents, device lists and cache lookups;
- clock readings;
- path resolution and directory existence.

Where the repository's documentation and its code disagree, the model follows the code:
- A second calibrator start-up with the same settings does not load the cached filter; it redesigns it (see Findings).
- A full capture queue drops the chunk and logs a warning; there is no dropped-frame counter, and the model counts the warnings.
- `AudioPipeline.execute` catches nothing; a processor that raises ends the call before any sink runs.

## Model

| member | source | states |
|---|---|---|
| CalibrationFile.ParseFrequencyResponse | src/library/audio_device/calibrator.py:95-166 | a successful parse gives frequency and gain lists of equal, non-zero length; a missing file is the fatal "not found" error |
| CalibrationFile.ClassifyColumns | src/library/audio_device/calibrator.py:115-127 | only the first two whitespace-separated words of a line decide it: both decimal numbers make a row with those values, otherwise the line is non-numeric |
| CalibrationFile.RowLine | src/library/audio_device/calibrator.py:119-127 | a line `w.f<spaces>[-]w'.f'` is read as the row with those two decimal values |
| CalibrationFile.HeaderWordIsNotRow | src/library/audio_device/calibrator.py:129-141 | a line whose first word cannot start a decimal number (such as the quoted or unquoted "Sens Factor" header) is never a row, so before the table it is skipped |
| CalibrationFile.SkipHeader | src/library/audio_device/calibrator.py:114-141 | before the first row every line that is not a row is skipped, whatever follows |
| CalibrationFile.ReadBody | src/library/audio_device/calibrator.py:129-147 | once a row has been read, rows and blank lines are collected in order and the first non-numeric or single-word line ends the table |
| CalibrationFile.TableLayout | src/library/audio_device/calibrator.py:114-157 | a file made of a row-free header, a body starting with a row, and a tail that ends the table parses to exactly the body's rows in file order; nothing after the body is read |
| CalibrationFile.NoRowsIsFatal | src/library/audio_device/calibrator.py:149-154 | a file without a single row is the fatal "no valid rows" error |
| CalibrationFile.GetSensitivityValues | src/library/audio_device/calibrator.py:246-282 | a missing file is exactly the re-raised "not found" error; a success always carries the 94 dBSPL reference |
| CalibrationFile.FactorOfLine | src/library/audio_device/calibrator.py:261 | the factor text of `lead=<d>dB<rest>` is `d` stripped, when the lead has no '=' and `d` has no 'd' or '=' |
| CalibrationFile.LabelledFactorLine | src/library/audio_device/calibrator.py:257-258 | a line that starts with a labelled lead carries the "Sens Factor" label after stripping |
| CalibrationFile.SensitivityOfFactorLine | src/library/audio_device/calibrator.py:253-267 | the first labelled line `<lead>=<decimal>dB...` yields (-18 + decimal, 94), whatever lines come before (unlabelled) or after |
| CalibrationFile.SensitivityExamples | src/library/audio_device/calibrator.py:261-267 | the factors -12.5 and -1.23 give -30.5 and -19.23 dBFS against 94 dBSPL |
| CalibrationFile.SensitivityNotFound | src/library/audio_device/calibrator.py:275 | a file none of whose lines carries the label fails with "not found" |
| CalibrationFile.SensitivityWithoutEquals | src/library/audio_device/calibrator.py:269-273 | a first labelled line without '=' is the "could not parse" error, even if a later line is well formed |
| Calibrator.CacheNextToCalibrationFile | src/library/audio_device/calibrator.py:51-54 | the cache file lies in the calibration file's directory and is named `<stem>_fir_<taps>taps_<int(rate)>hz.npy` |
| Calibrator.CacheNameInjective | src/library/audio_device/calibrator.py:53 | two settings share a cache name only if they have the same tap count and the same integer sample rate |
| Calibrator.StartWith | src/library/audio_device/calibrator.py:57-91 | the cache is used exactly when not forced, loaded, and of the accepted length; otherwise the filter is designed with `num_taps - 1` taps and the save outcome recorded; the state starts as zeros of length `len(taps) - 1`; failure happens exactly when the table is needed and cannot be parsed |
| Calibrator.Init | src/library/audio_device/calibrator.py:57-91 | the constructor as written: force always redesigns; a reused filter has `num_taps` taps; a designed one has `num_taps - 1` |
| Calibrator.InitCorrected | src/library/audio_device/calibrator.py:57-91 | with the length check matched to the designer, every filter has `num_taps - 1` taps |
| Calibrator.CacheAfter | src/library/audio_device/calibrator.py:84-89 | a designed filter whose save succeeded becomes the cache; otherwise the cache is untouched |
| Calibrator.SavedCacheNeverReused | src/library/audio_device/calibrator.py:63 | as written, the start-up after one that designed and saved the filter still redesigns it (the same taps) instead of loading them |
| Calibrator.SavedCacheReused | src/library/audio_device/calibrator.py:57-91 | corrected, the next start-up loads the saved filter, whatever the calibration file now holds |
| FirFilter.DesignGrid | src/library/audio_device/calibrator.py:188-202 | the grid has n + 2 points: 0, each frequency over Nyquist, then 1; each gain is `10 ** (-dB / 20)`; the edge gains repeat the first and last |
| FirFilter.GridAxisIsValid | src/library/audio_device/calibrator.py:193-199 | a table of increasing frequencies strictly inside (0, Nyquist) gives a strictly increasing axis within [0, 1] |
| FirFilter.CorrectionInvertsResponse | src/library/audio_device/calibrator.py:188-191 | at every measured point the correction gain times the microphone's linear gain is 1 |
| FirFilter.Design | src/library/audio_device/calibrator.py:206 | the designer is asked for `num_taps - 1` coefficients and returns that many |
| FirFilter.DesignFilter | src/library/audio_device/calibrator.py:168-209 | a designed filter has `num_taps - 1` taps |
| FirFilter.Initial | src/library/audio_device/calibrator.py:91 | the state after construction is all zeros, one element shorter than the taps |
| FirFilter.Apply | src/library/audio_device/calibrator.py:211-224 | a filtered chunk has the input's length; the state keeps its length and holds the last inputs |
| FirFilter.ApplyChunks | src/library/audio_device/calibrator.py:223 | filtering a and then b with the carried state gives the same outputs and final state as filtering a + b at once |
| FirFilter.ApplyFromRest | src/library/audio_device/calibrator.py:211-224 | from the initial state, output n is `Σ b[k]·x[n−k]`, with samples before the start taken as 0 |
| FirFilter.StreamIsOneApply | src/library/audio_device/calibrator.py:223 | streaming any number of chunks equals one application to their concatenation |
| FirFilter.StreamedOutputIsConvolution | src/library/audio_device/calibrator.py:211-224 | however the signal is cut into chunks, a fresh filter streams out the convolution of the taps with the whole signal |
| AudioMetrics.LufsBlockSize | src/library/audio_metrics.py:43 | the LUFS block is the whole part of 3 × sample rate |
| AudioMetrics.Rms | src/library/audio_metrics.py:46-54 | the result is NaN exactly for an empty chunk |
| AudioMetrics.RmsIsRootMeanSquare | src/library/audio_metrics.py:46-54 | RMS is never negative and its square is the mean square of the chunk |
| AudioMetrics.RmsOfSilence | src/library/audio_metrics.py:46-54 | an all-zero chunk has RMS 0 |
| AudioMetrics.Dbfs | src/library/audio_metrics.py:79-95 | dBFS is never below -120; it is `20·log10(rms + 1e-10)` when that is above -120 and exactly -120 otherwise; an empty chunk reads -120 |
| AudioMetrics.DbfsOfSilence | src/library/audio_metrics.py:79-95 | silence reads exactly -120 dBFS |
| AudioMetrics.DbfsMonotone | src/library/audio_metrics.py:79-95 | a chunk with at least as much energy per sample never reads a lower dBFS |
| AudioMetrics.DbSpl | src/library/audio_metrics.py:98-122 | dBSPL sits as far above the reference as dBFS sits above the sensitivity, so dBFS equal to the sensitivity reads the reference level |
| AudioMetrics.DbSplInverse | src/library/audio_metrics.py:98-122 | the dBFS level can be recovered from dBSPL, and a step in dBFS is the same step in dBSPL |
| AudioMetrics.Lufs | src/library/audio_metrics.py:143-156 | LUFS is never below -120; a measured value above -120 is kept, and one at or below it, like minus infinity, becomes exactly -120; the meter's error propagates |
| AudioMetrics.LufsMonotone | src/library/audio_metrics.py:143-156 | a louder meter reading never gives a lower LUFS value |
| AudioMetrics.Flux | src/library/audio_metrics.py:57-76 | flux is an element of the envelope and no element exceeds it; an empty envelope raises |
| AudioMetrics.FluxExample | src/library/audio_metrics.py:57-76 | the envelope [0.1, 0.5, 0.2] gives 0.5 |
| AudioMetrics.Aggregate | src/library/audio_metrics.py:124-130 | the chunk joins the end of the buffer and the earlier chunks are kept |
| AudioMetrics.Drain | src/library/audio_metrics.py:132-141 | draining leaves the buffer empty |
| AudioMetrics.DrainReturnsAggregated | src/library/audio_metrics.py:124-141 | chunks buffered one by one are drained all together, in insertion order, leaving the buffer empty |
| MetricsSink.Measure | src/py_umik/apps/real_time_meter.py:89-116 | a snapshot exists exactly when flux and LUFS do not raise; it carries the given time, the clamped levels, `interval_s` = samples / rate, and dBSPL exactly when calibrated, offset from dBFS as the calibration says |
| MetricsSink.SettingsInterval | src/py_umik/apps/real_time_meter.py:49-52 | `DEFAULT_METRIC_INTERVAL_SECONDS` wins over `METRICS.INTERVAL_SECONDS`, which wins over 3 |
| MetricsSink.TargetSamples | src/py_umik/apps/real_time_meter.py:54-61 | the target is the whole part of interval × rate for a positive interval, and 0 otherwise |
| MetricsSink.NewSink | src/py_umik/apps/real_time_meter.py:54-61 | a new sink is empty and consistent, and it is immediate exactly when the interval gives fewer than one sample |
| MetricsSink.Accumulate | src/py_umik/apps/real_time_meter.py:73-84 | a chunk is buffered and counted; when the count reaches the target the in-order concatenation is handed out and the buffer and counter reset |
| MetricsSink.AccumulateKeepsCount | src/py_umik/apps/real_time_meter.py:73-84 | a step keeps the counter equal to the buffered samples and below the target; an emitted block holds at least the target |
| MetricsSink.HandleAudio | src/py_umik/apps/real_time_meter.py:63-87 | immediate mode measures exactly the chunk at its own timestamp and buffers nothing, failing exactly when that measurement raises; windowed mode buffers below the target and otherwise measures the in-order concatenation of the buffer and the chunk at `now` and resets, except after an error, which leaves the chunk buffered; dBSPL appears exactly when calibrated |
| MetricsSink.HandleAudioInvariant | src/py_umik/apps/real_time_meter.py:63-87 | every call keeps the counter equal to the buffered samples; every call that does not raise leaves fewer than `target` buffered; a logged block covers at least one interval |
| MetricsSink.NothingLostOrRepeated | src/py_umik/apps/real_time_meter.py:74-84 | over any stream of chunks, the emitted blocks followed by what is still buffered are exactly the earlier buffer followed by the stream |
| MetricsSink.BlocksCoverInterval | src/samples/apps/real_time_meter.py:76-90 | every emitted block holds at least the target, and after any non-empty stream less than the target remains buffered |
| MetricsSink.SamplesTargetAt48k | src/samples/apps/real_time_meter.py:49-58 | the 3-second interval at 48 kHz emits every 144000 samples, as does the `py_umik` default |
| MetricsSink.DecibelHandleAudio | src/app/decibel_meter.py:47-86 | every chunk is measured at its own timestamp without `interval_s`; it is an error exactly when flux or LUFS raises; the logged dBFS and LUFS are the chunk's, and dBSPL, present exactly when calibrated, is computed from that dBFS |
| MetricsSink.DecibelMatchesImmediate | src/app/decibel_meter.py:55-77 | the decibel meter reports the same snapshot as an immediate-mode windowed sink, less `interval_s` |
| Pipeline.Process | src/library/audio_pipeline.py:42-44 | the calibrator stage never raises, keeps its taps and returns a chunk of the input's length |
| Pipeline.NewPipeline | src/library/audio_pipeline.py:25-27 | a new pipeline has no processors and no sinks |
| Pipeline.AddProcessor | src/library/audio_pipeline.py:29-31 | the processor is appended and the sinks are untouched |
| Pipeline.AddSink | src/library/audio_pipeline.py:33-35 | the sink is appended and the processors are untouched |
| Pipeline.RunProcessors | src/library/audio_pipeline.py:42-44 | every processor keeps its place and stays valid; with no processors the input passes through and nothing ran; otherwise the first processor was given the input |
| Pipeline.ProcessorsChain | src/library/audio_pipeline.py:42-44 | each processor that ran was given the previous one's output; the processors that did not run are untouched; either all ran and the last output is the result, or the run stopped at the first processor that raised |
| Pipeline.DeliverFrom | src/library/audio_pipeline.py:47-48 | sinks are called in order with the same chunk and timestamp until one raises, and none after it |
| Pipeline.Execute | src/library/audio_pipeline.py:37-48 | a raising processor ends the call before any sink; otherwise the sinks receive the final chunk and the unchanged timestamp in order; with no processors they receive the input |
| Pipeline.EverySinkOnce | src/library/audio_pipeline.py:47-48 | when nothing raises, every sink is called exactly once, in insertion order |
| Pipeline.CalibratedPipeline | src/library/audio_pipeline.py:42-48 | with the calibrator as only processor every sink gets the filtered chunk and the filter state carries to the next call |
| Consumer.CallbacksOrEmpty | src/library/audio_streams/consumer_thread.py:55-58 | missing callbacks become the empty list; a given list is kept |
| Consumer.DispatchFrom | src/library/audio_streams/consumer_thread.py:79-83 | every callback from `k` on is called once, in order, with the item, whether or not earlier ones raised |
| Consumer.Dispatch | src/library/audio_streams/consumer_thread.py:79-83 | each item reaches every callback in list order, each raise being caught on its own |
| Consumer.RunLoop | src/library/audio_streams/consumer_thread.py:76-90 | a run that does not stop consumes every event |
| Consumer.RunDispatchesItemsBeforeStop | src/library/audio_streams/consumer_thread.py:76-90 | a run dispatches exactly the items before the first queue error or stop request to every callback, ignores timeouts, consumes that event and nothing more, and stops if and only if one occurs |
| Consumer.NothingAfterStop | src/library/audio_streams/consumer_thread.py:76 | events after a stop are never consumed |
| Capture.Flatten | src/py_umik/core/listener_thread.py:121-122 | a one-dimensional chunk is enqueued as it is |
| Capture.Initial | src/py_umik/core/listener_thread.py:87 | the loop starts running, with no stream, no retries and nothing queued |
| Capture.Step | src/py_umik/core/listener_thread.py:90-149 | an open resets the counter; a hardware error increments it and stops exactly at the limit; any other error is fatal; a full queue drops the chunk and warns, otherwise the flattened chunk is queued; a stopped loop never changes |
| Capture.RetriesCountErrorsSinceOpen | src/py_umik/core/listener_thread.py:97-144 | while running, the counter is the number of hardware errors since the last successful open and is below the limit; an open stream has a zero counter |
| Capture.FatalStopNeedsConsecutiveErrors | src/py_umik/core/listener_thread.py:131-141 | the watchdog gives up only at a hardware error that makes `max_retries` consecutive failures with no open between them |
| Capture.OneErrorThenOpen | src/py_umik/core/listener_thread.py:97-133 | one hardware error then a successful open is two open attempts, and the chunk read is queued |
| DeviceSelector.GetAudioDevice | src/library/audio_device/selector.py:46-86 | without a (truthy) target, the device whose index is the default input, else re-raised; with a target, a listed device with that index and an input channel exactly when one exists, else "not found" (exit 1); query errors are re-raised |
| DeviceSelector.Select | src/library/audio_device/selector.py:38-42 | the selector keeps the device's index, name and default rate, and `is_default` is true exactly for the name "default" |
| DeviceSelector.ZeroMeansDefault | src/library/audio_device/selector.py:59-63 | asking for index 0 is asking for the default device |
| DeviceSelector.ShowAudioDevices | src/library/audio_device/selector.py:89-115 | the warning is logged exactly when nothing is listed; a failed query lists nothing |
| DeviceSelector.InputDevices | src/library/audio_device/selector.py:100-101 | the listed devices are exactly the input-capable ones |
| DeviceSelector.ListingMatchesInputs | src/library/audio_device/selector.py:100-109 | the listing has one line per input-capable device, in order, showing its index, rate and name, with '>' exactly on the selected index |
| DeviceSelector.WarnsIffNoInputs | src/library/audio_device/selector.py:99-112 | the warning is logged exactly when no device can record |
| DeviceConfig.NewConfig | src/library/audio_device/config.py:24-55 | the id is the device's; the rate, buffer, dtype and priority are kept; the block size is `int(rate × buffer)`, truncated toward zero |
| DeviceConfig.NewDefaultConfig | src/library/audio_device/config.py:29-30 | the defaults are "float32" and normal priority, and they do not affect the block size |
| DeviceConfig.BlockFitsBuffer | src/library/audio_device/config.py:54 | a block never lasts longer than the buffer and falls short of it by less than one sample period |
| DeviceConfig.BlockSizeExamples | src/library/audio_device/config.py:54 | 48 kHz × 2 s is 96000 frames and 44.1 kHz × 1 s is 44100 |
| BufferRounding.RoundBuffer | src/audio_app_config.py:149-162 | below the minimum the result is the minimum; otherwise it is the least multiple of the window not below the request (the request itself when already a multiple) |
| BufferRounding.CeilMultiple | src/py_umik/core/config.py:186-187 | `ceil(b / w) · w` is a multiple of w in [b, b + w) |
| BufferRounding.RoundBufferIdempotent | src/py_umik/core/config.py:180-192 | rounding an already rounded buffer changes nothing when the minimum is a multiple of the window |
| BufferRounding.RoundingExamples | src/py_umik/core/config.py:180-192 | with 3 s minimum and window, 1 s becomes 3 s, 4 s becomes 6 s and 6 s stays |
| AudioAppConfig.DefaultArgs | src/audio_app_config.py:23-26 | the defaults are a 6 s buffer, 48000 Hz and 1024 taps with no device or file |
| AudioAppConfig.SelectionError | src/audio_app_config.py:164-169 | "device not found" (exit 1) is kept apart from other selector errors |
| AudioAppConfig.CalibrationRate | src/audio_app_config.py:188-206 | a positive native rate overrides the request; otherwise the request is kept |
| AudioAppConfig.Calibrate | src/audio_app_config.py:186-217 | calibration succeeds exactly when the sensitivity can be read, and then carries the file, the taps, the rate and that sensitivity pair |
| AudioAppConfig.ValidateArgs | src/audio_app_config.py:130-228 | the buffer is rounded; the selected device is kept; calibration is on exactly for a non-default device, which without a file is the "Calibration file required" error; the rate is the request unless calibrating; sensitivity errors propagate |
| AudioAppConfig.DefaultDeviceIgnoresCalibrationFile | src/audio_app_config.py:179-222 | with the default device selected, any calibration file, or none, gives the same uncalibrated configuration |
| AudioAppConfig.NonDefaultDeviceIsCalibrated | src/audio_app_config.py:179-217 | a non-default device is accepted exactly with a file whose sensitivity can be read, and is then calibrated |
| AudioAppConfig.NativeRateFallback | src/audio_app_config.py:188-206 | a device with no usable native rate runs at the requested rate |
| CoreConfig.ResolveCalibrationFile | src/py_umik/core/config.py:156-163 | the argument wins; the environment variable is used only without `--default` |
| CoreConfig.DetectDevice | src/py_umik/core/config.py:165-173 | the "UMIK-1" search result replaces the device id exactly when a file is active, no id was given and `--default` is off; a failed search leaves the id unset |
| CoreConfig.TargetId | src/py_umik/core/config.py:196 | `--default` forces the default device; otherwise the detected id is used |
| CoreConfig.ValidateArgs | src/py_umik/core/config.py:137-255 | the selection's errors propagate; the buffer is rounded with the settings; calibration is on exactly when a file is resolved, at the native-or-requested rate, with the file's sensitivity and the taps; failure is exactly a selection or sensitivity error; no file is ever required |
| CoreConfig.DefaultIgnoresEnvironmentAndDevice | src/py_umik/core/config.py:156-196 | under `--default` the environment variable, the name search and the device id have no effect: the system default is selected |
| CoreConfig.ExplicitFileWinsOverEnvironment | src/py_umik/core/config.py:156-163 | a file on the command line makes the environment variable irrelevant |
| CoreConfig.UmikSearchOnlyWhenCalibrating | src/py_umik/core/config.py:166-173 | the name search has no effect unless it runs |
| CoreConfig.UmikFoundIsSelected | src/py_umik/core/config.py:166-197 | a device found by the search is the one selected |
| CoreConfig.BufferExamples | src/py_umik/core/config.py:175-192 | with default settings, 1 s becomes 3 s and 4 s becomes 6 s |
| CoreConfig.CalibrationUsesNativeRate | src/py_umik/core/config.py:212-244 | asking 44.1 kHz of a native 48 kHz device with a file calibrates at 48 kHz with the file's sensitivity and the given taps |
| CoreConfig.NoCalibrationKeepsRequestedRate | src/py_umik/core/config.py:247-249 | without a file a non-default device is used uncalibrated at the requested rate |
| DatetimeStamp.StampLayout | src/datetime_stamp.py:16 | for four-digit years the stamp has 19 characters, '-' at 4 and 7, ' ' at 10, ':' at 13 and 16, and digits elsewhere |
| DatetimeStamp.StampCharacters | src/datetime_stamp.py:16 | a stamp holds neither '/' nor '.' |
| DatetimeStamp.ParseStamp | src/py_umik/apps/metrics_analyzer.py:110 | parsing succeeds only on stamp-shaped text and yields a valid date and time |
| DatetimeStamp.ParseFormat | src/datetime_stamp.py:16 | parsing a stamp gives back the time it was formatted from (the fields are zero-padded to two digits) |
| DatetimeStamp.FormatInjective | src/datetime_stamp.py:16 | distinct times give distinct stamps |
| DatetimeStamp.NoonExample | src/datetime_stamp.py:16 | 2025-01-01 12:00:00 formats as "2025-01-01 12:00:00" |
| Recorder.NewRecorder | src/library/audio_streams/recorder.py:48-56 | a new recorder is closed, its counter is 0, and the rotation length is seconds × rate frames |
| Recorder.DefaultRotation | src/library/audio_streams/recorder.py:52 | one hour at 48 kHz is 172800000 frames |
| Recorder.GenerateFilename | src/library/audio_streams/recorder.py:58-66 | the generated path is well formed |
| Recorder.FilenameBesideBase | src/library/audio_streams/recorder.py:62-64 | a base with a suffix gives `<parent>/<stem>_<stamp><suffix>`: same parent and suffix, stem with the stamp appended |
| Recorder.FilenameInsideBase | src/library/audio_streams/recorder.py:66 | a base without a suffix gives `<base>/recording_<stamp>.wav` |
| Recorder.StampFitsFilename | src/library/audio_streams/recorder.py:60-66 | the stamp put in a name has no '/' or '.', so it cannot change the directory or the suffix |
| Recorder.Open | src/library/audio_streams/recorder.py:75-93 | open when open does nothing; otherwise it succeeds exactly when the file can be created with accepted header parameters, starts the counter at 0 and records the new file; on failure it stays closed and raises |
| Recorder.Close | src/library/audio_streams/recorder.py:118-127 | closing always ends with no open file and no handle; closing a closed recorder does nothing |
| Recorder.Rotate | src/library/audio_streams/recorder.py:68-73 | rotation closes and opens a new file with a zero counter, or ends closed when the open fails |
| Recorder.FramesIn | src/library/audio_streams/recorder.py:107 | the frames in a chunk are the whole number of (channels × width)-byte frames |
| Recorder.Write | src/library/audio_streams/recorder.py:95-116 | closed or failing, nothing changes; otherwise the frames are counted, and at the rotation length a new file is opened or, if that fails, the recorder ends closed; the counter stays below the rotation length while open |
| Recorder.CounterCountsFrames | src/library/audio_streams/recorder.py:107-111 | below the rotation length the same file stays open and its counter grows by exactly the frames written |
| Recorder.SegmentsOnlyGrow | src/library/audio_streams/recorder.py:95-116 | writes never forget a file that was opened: the list of segments only grows |
| RecordApp.OutputPath | src/app/record.py:42-48 | a path of more than one part is kept as given |
| RecordApp.BareNameGoesUnderRecordings | src/app/record.py:44-46 | a bare file name is placed under "recordings" |
| RecordApp.LongerPathKept | src/app/record.py:47-48 | `a/b` is used as written |
| RecordApp.TargetDir | src/app/record.py:53-59 | the directory to ensure is the parent of a path with a suffix and the path itself otherwise |
| RecordApp.NewRecorderApp | src/app/record.py:42-96 | the resolved path is the recorder's base; the directory is created exactly when it does not exist; the device is high priority with the configured rate and buffer; the recorder is mono 16-bit at the truncated rate and open on its first file; the calibrator is used exactly when configured; start-up fails exactly when the first file cannot be opened |
| RecordApp.RecordingLandsInTargetDir | src/app/record.py:53-83 | the first recording file is written into the directory the constructor made sure exists |
| RecordApp.CloseApp | src/app/record.py:102-108 | the recorder is closed before the base shutdown and its segments are kept |
| Pcm.Scale | src/app/enhance_voice.py:153-156 | int16 and int32 samples are divided by 2^15 and 2^31; other types are kept |
| Pcm.MixToMono | src/app/enhance_voice.py:159-161 | each output sample is the mean of its frame |
| Pcm.NormalizeThenMix | src/app/enhance_voice.py:153-161 | one-channel audio is normalised sample by sample; frames give one sample each |
| Pcm.ScaledSampleInUnitRange | src/app/enhance_voice.py:153-156 | a normalised in-range int16 or int32 sample lies in [-1, 1) |
| Pcm.NormalizedInUnitRange | src/app/enhance_voice.py:153-161 | normalising before mixing puts in-range integer audio in [-1, 1), whatever the channel count |
| Pcm.MixThenNormalize | src/py_umik/apps/metrics_analyzer.py:85-93 | as written, frames are averaged first and the averaged (float64) audio is not scaled |
| Pcm.MixFirstSkipsScaling | src/py_umik/apps/metrics_analyzer.py:85-93 | for multi-channel integer audio the as-written result is the normalised one times the full scale |
| Pcm.OrdersAgree | src/py_umik/apps/metrics_analyzer.py:85-93 | one-channel audio and float audio come out the same in either order |
| Pcm.StereoInt16Example | src/py_umik/apps/metrics_analyzer.py:85-93 | a stereo int16 frame (16384, 16384) gives 16384.0 as written and 0.5 normalised first |
| MetricsAnalyzer.NewAnalyzer | src/py_umik/apps/metrics_analyzer.py:40-95 | an unreadable calibration, a missing file or an unreadable WAV exits; otherwise the name is the file's base name, the sensitivity pair is the file's (or none with 94 dBSPL), and the audio is empty or the frames averaged to mono and then scaled by the mixed array's type, so only single-channel integer audio is divided by its full scale |
| MetricsAnalyzer.AnalyzerLeavesMixedIntegersUnscaled | src/py_umik/apps/metrics_analyzer.py:85-93 | for multi-channel int16 or int32 input every analysed sample is the full scale times the correctly normalised one |
| MetricsAnalyzer.AnalyzerStereoInt16Example | src/py_umik/apps/metrics_analyzer.py:85-93 | a stereo int16 frame (16384, 16384) is analysed as 16384.0 |
| MetricsAnalyzer.Search | src/py_umik/apps/metrics_analyzer.py:106 | the search returns the leftmost place the timestamp pattern matches, or none when there is none |
| MetricsAnalyzer.SearchFinds | src/py_umik/apps/metrics_analyzer.py:106 | the first place the pattern matches is the one found |
| MetricsAnalyzer.NormalizeSeparators | src/py_umik/apps/metrics_analyzer.py:108 | '_' and 'T' become ' ' and '.' becomes ':'; every other character is kept |
| MetricsAnalyzer.StartTime | src/py_umik/apps/metrics_analyzer.py:97-114 | a manual string that parses wins; otherwise no match gives none and a found time is a valid date and time |
| MetricsAnalyzer.StampUnchangedByNormalizing | src/py_umik/apps/metrics_analyzer.py:108 | a DatetimeStamp text is left unchanged by the separator replacement |
| MetricsAnalyzer.StampedNameGivesStartTime | src/py_umik/apps/metrics_analyzer.py:104-112 | a file name with a DatetimeStamp after a digit-free prefix gives back that time, unless a manual time overrides it |
| MetricsAnalyzer.RecordingNameGivesStartTime | src/py_umik/apps/metrics_analyzer.py:104-112 | the recorder's own `recording_<stamp>.wav` names carry their start time |
| MetricsAnalyzer.ChunkSize | src/py_umik/apps/metrics_analyzer.py:133-135 | the chunk size is never 0: the whole part of rate × ms / 1000, or 1 where that is 0 |
| MetricsAnalyzer.TotalChunks | src/py_umik/apps/metrics_analyzer.py:138 | the count is the number of whole chunks, and a negative chunk size runs no iteration |
| MetricsAnalyzer.ChunksCoverPrefix | src/py_umik/apps/metrics_analyzer.py:138-147 | the whole chunks, in order, are exactly the audio up to the last whole chunk; the partial rest is dropped |
| MetricsAnalyzer.LufsStart | src/py_umik/apps/metrics_analyzer.py:161 | the window starts at `max(0, end - window)` |
| MetricsAnalyzer.LufsAt | src/py_umik/apps/metrics_analyzer.py:161-168 | LUFS is the meter's value on a window of at least 0.4 s whose metering does not raise, and -70 otherwise |
| MetricsAnalyzer.RowAt | src/py_umik/apps/metrics_analyzer.py:143-186 | row i holds the end time of chunk i in seconds, the engine's metrics on chunk i, LUFS over the trailing one-second window, a timestamp exactly with a start time and dBSPL exactly with a sensitivity |
| MetricsAnalyzer.Rows | src/py_umik/apps/metrics_analyzer.py:137-186 | there is one row per whole chunk, in order, and each describes its chunk |
| MetricsAnalyzer.RunAnalysis | src/py_umik/apps/metrics_analyzer.py:116-147 | empty audio is skipped and nothing else is; otherwise the rows use the recovered start time |
| MetricsAnalyzer.LufsWindowShape | src/py_umik/apps/metrics_analyzer.py:137-162 | the window never extends past the chunk's end or covers more than one second, and is exactly one second once the audio is that long |
| MetricsAnalyzer.EarlyRowsShowFloor | src/py_umik/apps/metrics_analyzer.py:161-168 | rows whose chunk ends within the first 0.4 s show -70, whatever the meter says |
| MetricsAnalyzer.ChunkSizeExamples | src/py_umik/apps/metrics_analyzer.py:133-135 | 48 kHz at 100 ms is 4800 samples; 44.1 kHz at 10 ms is 441; a tiny rate gives 1 |
| EnhanceVoice.BandEdges | src/app/enhance_voice.py:44-46 | each cut-off is its fraction of the Nyquist frequency 0.5·fs |
| EnhanceVoice.BandInsideUnitInterval | src/app/enhance_voice.py:44-49 | a band inside (0, fs/2) becomes an ordered band inside (0, 1) |
| EnhanceVoice.DefaultBandAt48k | src/app/enhance_voice.py:44-46 | 300–3400 Hz at 48 kHz is (0.0125, 17/120) |
| EnhanceVoice.MaxAbs | src/app/enhance_voice.py:102 | the peak is the largest magnitude, reached by some sample |
| EnhanceVoice.PeakGuard | src/app/enhance_voice.py:102-104 | an empty signal raises; otherwise samples lie in [-1, 1], unchanged when the peak is at most 1 and divided by the peak otherwise |
| EnhanceVoice.GuardWith | src/app/enhance_voice.py:103-104 | guarding against any bound on the magnitudes yields a guarded signal |
| EnhanceVoice.DivideAll | src/app/enhance_voice.py:104 | dividing by a peak above 1 keeps every sample in [-1, 1] and recovers the input when multiplied back |
| EnhanceVoice.Wrap16 | src/app/enhance_voice.py:106 | the int16 cast gives a 16-bit value and keeps values already in range |
| EnhanceVoice.ToInt16 | src/app/enhance_voice.py:106 | every converted sample is a 16-bit value |
| EnhanceVoice.NoWrapInUnitRange | src/app/enhance_voice.py:106 | a sample in [-1, 1] scaled by 32767 never wraps |
| EnhanceVoice.ProcessChunk | src/app/enhance_voice.py:92-106 | the chunk is optionally denoised, band-passed, guarded and converted; it fails exactly when the band-pass filter raises or returns an empty signal |
| EnhanceVoice.ProcessedSamplesFit | src/app/enhance_voice.py:100-106 | every output sample is within [-32767, 32767] and is the truncation of the guarded value times 32767 |
| EnhanceVoice.PartCount | src/app/enhance_voice.py:166 | the count is the least number of parts covering the signal, and a negative part size runs no iteration |
| EnhanceVoice.Part | src/app/enhance_voice.py:176-182 | a part is non-empty, at most one part size long, and shorter only at the end of the signal |
| EnhanceVoice.Parts | src/app/enhance_voice.py:176-182 | there are `ceil(total / size)` parts |
| EnhanceVoice.PartsCoverPrefix | src/app/enhance_voice.py:176-182 | the first k parts are the signal up to `min(k·size, total)` |
| EnhanceVoice.PartsPartition | src/app/enhance_voice.py:164-182 | the parts, in order, make up the whole signal, none is empty, and all but the last hold exactly one part size |
| EnhanceVoice.PartNamesDistinct | src/app/enhance_voice.py:187-192 | different parts never get the same file name |
| EnhanceVoice.PartNameDefaultExample | src/app/enhance_voice.py:187-192 | part 1 of "talk.wav" with no output path is "talk_enhanced_part001.mp3" |
| EnhanceVoice.PartNameOutputExample | src/app/enhance_voice.py:187-192 | part 12 with the output path "out/voice.mp3" is "out/voice_part012.mp3" |
| EnhanceVoice.Plan | src/app/enhance_voice.py:141-192 | a missing or non-PCM input exits; a zero part size divides by zero; otherwise the parts are named in order and together are the normalised mono signal |
| EnhanceVoice.Samples | src/app/enhance_voice.py:182 | the samples of each output part, in order |
| EnhanceVoice.PartExamples | src/app/enhance_voice.py:164-166 | ten minutes at 48 kHz is 28800000 samples, and 25 minutes make three parts |

## Left out

- Floating point: samples, levels and rates are reals, so IEEE rounding, `float32` conversion, `round()` and NaN are not modelled. The exception is an empty chunk's RMS, which is written `None` for NaN.
- Pcm.Mean: a frame with no channels averages to 0, not NaN; a WAV frame always has at least one channel.
- DSP: `firwin2`, `lfilter`'s internal state layout, the Butterworth design and `sosfiltfilt`, noisereduce, librosa's onset envelope and the pyloudnorm meter enter as functions. Only the shape facts the code relies on are kept.
- FirFilter.Apply: the carried state is the last `len(taps) - 1` inputs rather than `lfilter`'s transposed direct-form state. From the zero start both give the same outputs.
- FirFilter.DesignGrid, Calibrator.StartWith: they require a positive sample rate and at least 2 taps (1 for the designer). The source would divide by zero, or ask `firwin2` for a non-positive tap count, which raises.
- MetricsSink.Measure, MetricsSink.HandleAudio, MetricsSink.TargetSamples: they require a positive sample rate. A zero rate would raise on division inside the metric computation.
- MetricsAnalyzer.Rows, MetricsAnalyzer.RunAnalysis: they require a positive sample rate, because the row time divides by it.
- EnhanceVoice.BandEdges: it requires a non-zero sample rate, for the same reason.
- I/O is modelled as parameters:
  - file reads, `np.load`/`np.save`, `wave`, `sounddevice` streams and device queries;
  - `mkdir`, `Path.resolve`, `os.path.exists`, the environment and the clocks.
  - Threads, signals and the base application classes are not modelled.
- `show_metrics`, the analyzer's CSV writing, its summary and the formatting of its absolute timestamps are not modelled. Only the offset from the start time is kept.
- The pydub stages of the voice enhancer are not modelled: compression, normalisation and the mp3 export.
- EnhanceVoice.ChunkSamples: fractional `chunk_minutes` are not modelled; the minutes and rate are integers.
- The `py_umik` hardware selector's name search (`find_device_by_name`), its calibrator and its metrics engine are not part of this model. They enter as `Host` and `Engine` parameters, with `CalibrationFile.GetSensitivityValues` standing for the sensitivity reader.
- A calibrator construction that fails (fatal parse error) inside either argument validator is not modelled. The configuration records the calibration setup the calibrator is built from.
- Capture.Step: a read event while no stream is open cannot happen in the source. It is modelled as changing nothing.
- Recorder.Write: it requires the recorder invariant (a handle exactly when open). A wave handle left behind when `open` fails after `wave.open` is not modelled.
- `MetricsSink.SettingsInterval` takes the two settings attributes as given. How the pydantic settings object is built is not modelled.
- Text.IsSpace: only ASCII whitespace counts (tab, line feed, vertical tab, form feed, carriage return, the separators 0x1C-0x1F and space). `str.split` and `\s` also accept other Unicode spaces, which are not modelled. Likewise `\d` is taken to be an ASCII digit.
- Text.ParseFloat: only decimal text is read: an optional sign, digits with an optional point, and an optional exponent. Python's `float()` also accepts "inf", "infinity" and "nan" in any case and with a sign, and underscores between digits such as "1_000". These read as unparsable here, because the model's values are reals.
- CalibrationFile.ClassifyColumns: "numeric" means decimal as `Text.ParseFloat` reads it. A line such as "nan 0.5", "inf 1" or "1_000 0.5" is a row in the source and non-numeric here.
- CalibrationFile.HeaderWordIsNotRow: the first words it covers cannot start decimal text. A first word "inf", "nan" or "Infinity" would start a row in the source.
- Paths are POSIX paths as `pathlib` and `os.path` treat them for plain names. Drive letters and `..` handling are not modelled.
- EnhanceVoice.ToInt16: a value outside the 16-bit range is wrapped modulo 2^16. After the peak guard this cannot happen.
- EnhanceVoice.ProcessChunk: when `sosfiltfilt` raises depends on its padding length (tens of samples for the order-6 band). The filter parameter decides it by returning `None`. `process_audio` does not catch that error, so a very short last part ends the run after the earlier parts were exported; `EnhanceVoice.Plan` stops at each part's samples and does not model the export loop.
- Consumer.Dispatch: callbacks are assumed to have a `__name__`. The per-callback handler reads it to log the error, so a raising callable without one (a `functools.partial`, a callable object) would make the handler raise, skip the remaining callbacks and stop the consumer.
- Consumer.DispatchFrom: the same assumption. Every callback from `k` on runs only because each raising one has a `__name__` for the handler to log.
- Calibrator.StartWith: the designer is total. `firwin2` raises a ValueError when asked for an even tap count with a non-zero gain at Nyquist (an odd `num_taps`, since `num_taps - 1` taps are requested), or when the axis is not increasing (a table frequency at or above Nyquist). Nothing in the calibrator catches it, so in the source such a start-up fails.

## Findings

| source | as written | input that shows it | evidently intended | confidence | as-written member | corrected member |
|---|---|---|---|---|---|---|
| src/library/audio_device/calibrator.py:63 | a cached filter is reused only if it has `num_taps` taps, but the designer (line 206) produces `num_taps - 1`, so a cache written by this class never passes the check | a start-up with `num_taps = 1024` saves 1023 taps; the next start-up with the same settings finds 1023 ≠ 1024 and redesigns | compare the cached length with the length the designer returns | not executed | Calibrator.SavedCacheNeverReused | Calibrator.SavedCacheReused |
| src/py_umik/apps/metrics_analyzer.py:85-93 | multi-channel audio is averaged before the bit-depth check; `np.mean` returns `float64`, so mixed int16/int32 audio is never divided by its full scale | a stereo int16 frame (16384, 16384) becomes 16384.0 instead of 0.5 | normalise each sample, then mix, as the voice enhancer does (src/app/enhance_voice.py:153-161) | not executed | Pcm.MixFirstSkipsScaling | Pcm.NormalizedInUnitRange |
