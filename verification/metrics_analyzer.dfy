/**
 * `MetricsAnalyzer` of `py_umik`: one WAV file cut into fixed chunks, one row of metrics
 * per whole chunk, LUFS over a trailing one-second window with a -70 floor, dBSPL only
 * with a calibration, and the recording's start time taken from a manual ISO string or
 * from a timestamp in the file name.
 *
 * The per-chunk metrics (the `py_umik` metrics engine), `datetime.fromisoformat` and
 * every read of a file are inputs.
 */
module MetricsAnalyzer {
  import opened Wrappers
  import Numeric
  import Text
  import Paths
  import Pcm
  import Blocks
  import CalibrationFile
  import DatetimeStamp

  const DefaultReferenceDbspl: real := 94.0
  const LufsFloor: real := -70.0
  const DefaultChunkMs: int := 100
  /** A trailing window shorter than this share of one second is not metered. */
  const MinLufsShare: real := 0.4

  // ---------------------------------------------------------------- loading

  /** What `os.path.exists` and `wavfile.read` report for the file. */
  datatype WavRead = Missing | Unreadable | Read(sampleRate: int, wav: Pcm.Wav)

  /** Each of these logs an error and exits with status 1. */
  datatype LoadError = CalibrationUnreadable | FileNotFound | WavUnreadable

  datatype Analyzer = Analyzer(
    filename: string,
    sensitivity: Option<real>,
    reference: real,
    sampleRate: int,
    audio: seq<real>)

  /**
   * The constructor: the calibration (when a file is named) is read first, then the
   * audio, which is mixed to one channel and then normalised by the mixed array's type,
   * unless it holds no samples. Mixed integer audio therefore stays unscaled.
   */
  function NewAnalyzer(filePath: string, calibrationFile: Option<string>,
                       readCalibration: string -> CalibrationFile.FileContents, wav: WavRead)
    : (r: Result<Analyzer, LoadError>)
    ensures Text.Truthy(calibrationFile) &&
            CalibrationFile.GetSensitivityValues(readCalibration(calibrationFile.value)).Failure? ==>
              r == Failure(CalibrationUnreadable)
    ensures r.Success? <==>
              wav.Read? &&
              (!Text.Truthy(calibrationFile) ||
               CalibrationFile.GetSensitivityValues(readCalibration(calibrationFile.value)).Success?)
    ensures r.Success? ==>
              r.value.filename == Paths.Basename(filePath) && r.value.sampleRate == wav.sampleRate &&
              (r.value.sensitivity.Some? <==> Text.Truthy(calibrationFile)) &&
              (Pcm.IsEmpty(wav.wav.data) ==> r.value.audio == []) &&
              (!Pcm.IsEmpty(wav.wav.data) ==> r.value.audio == Pcm.MixThenNormalize(wav.wav))
    ensures r.Success? && !Text.Truthy(calibrationFile) ==> r.value.reference == DefaultReferenceDbspl
    ensures r.Success? && Text.Truthy(calibrationFile) ==>
              (r.value.sensitivity.value, r.value.reference) ==
                CalibrationFile.GetSensitivityValues(readCalibration(calibrationFile.value)).value
  {
    var calibration :- if Text.Truthy(calibrationFile) then
        match CalibrationFile.GetSensitivityValues(readCalibration(calibrationFile.value))
        case Failure(_) => Failure(CalibrationUnreadable)
        case Success(v) => Success((Some(v.0), v.1))
      else Success((None, DefaultReferenceDbspl));
    match wav
    case Missing => Failure(FileNotFound)
    case Unreadable => Failure(WavUnreadable)
    case Read(rate, w) =>
      var audio := if Pcm.IsEmpty(w.data) then [] else Pcm.MixThenNormalize(w);
      Success(Analyzer(Paths.Basename(filePath), calibration.0, calibration.1, rate, audio))
  }

  /**
   * The analyzer's audio for multi-channel int16 or int32 input is the full scale times
   * the normalised mono signal: the frames are averaged and never divided.
   */
  lemma AnalyzerLeavesMixedIntegersUnscaled(filePath: string, readCalibration: string -> CalibrationFile.FileContents,
                                            rate: int, w: Pcm.Wav)
    requires w.dtype.Int16? || w.dtype.Int32?
    requires w.data.Multi? && !Pcm.IsEmpty(w.data)
    ensures var r := NewAnalyzer(filePath, None, readCalibration, Read(rate, w));
            r.Success? && |r.value.audio| == |Pcm.NormalizeThenMix(w)| &&
            forall i :: 0 <= i < |r.value.audio| ==>
              r.value.audio[i] == Pcm.NormalizeThenMix(w)[i] * Pcm.FullScale(w.dtype)
  {
    Pcm.MixFirstSkipsScaling(w);
  }

  /** A stereo int16 frame of two half-scale samples is read as 16384, not 0.5. */
  lemma AnalyzerStereoInt16Example(filePath: string, readCalibration: string -> CalibrationFile.FileContents)
    ensures NewAnalyzer(filePath, None, readCalibration, Read(48000, Pcm.Wav(Pcm.Int16, Pcm.Multi([[16384.0, 16384.0]]))))
              .value.audio == [16384.0]
  {
    var w := Pcm.Wav(Pcm.Int16, Pcm.Multi([[16384.0, 16384.0]]));
    assert !Pcm.IsEmpty(w.data) by {
      assert w.data.frames[0] != [];
    }
    Pcm.StereoInt16Example();
  }

  // ---------------------------------------------------------------- start time

  predicate DateTimeSeparator(c: char) {
    Text.IsSpace(c) || c == 'T' || c == '_'
  }

  predicate TimeSeparator(c: char) {
    c == ':' || c == '.'
  }

  /** The file-name pattern `\d{4}-\d{2}-\d{2}[\sT_]\d{2}[:.]\d{2}[:.]\d{2}` matches at `i`. */
  predicate MatchesAt(s: string, i: nat) {
    i + 19 <= |s| &&
    (forall k :: 0 <= k < 19 && DatetimeStamp.IsDigitPosition(k) ==> Text.IsDigit(s[i + k])) &&
    s[i + 4] == '-' && s[i + 7] == '-' && DateTimeSeparator(s[i + 10]) &&
    TimeSeparator(s[i + 13]) && TimeSeparator(s[i + 16])
  }

  /** `re.search`: the leftmost match at or after `from`. */
  function Search(s: string, from: nat): (r: Option<nat>)
    ensures r.Some? ==> from <= r.value && MatchesAt(s, r.value)
    ensures r.Some? ==> forall j :: from <= j < r.value ==> !MatchesAt(s, j)
    ensures r.None? ==> forall j :: from <= j ==> !MatchesAt(s, j)
    decreases |s| - from
  {
    if from + 19 > |s| then None
    else if MatchesAt(s, from) then Some(from)
    else Search(s, from + 1)
  }

  /** The search stops at the first place the pattern matches. */
  lemma {:induction false} SearchFinds(s: string, from: nat, at: nat)
    requires from <= at && MatchesAt(s, at)
    requires forall j :: from <= j < at ==> !MatchesAt(s, j)
    ensures Search(s, from) == Some(at)
    decreases at - from
  {
    if from < at {
      SearchFinds(s, from + 1, at);
    }
  }

  /** `'_'` and `'T'` become spaces and `'.'` becomes `':'`. */
  function NormalizeSeparators(t: string): (r: string)
    ensures |r| == |t|
    ensures forall i :: 0 <= i < |t| ==> r[i] != '_' && r[i] != 'T' && r[i] != '.'
    ensures forall i :: 0 <= i < |t| && t[i] != '_' && t[i] != 'T' && t[i] != '.' ==> r[i] == t[i]
  {
    seq(|t|, i requires 0 <= i < |t| =>
      if t[i] == '_' || t[i] == 'T' then ' ' else if t[i] == '.' then ':' else t[i])
  }

  /**
   * `_get_start_time`: a manual string `fromIso` accepts wins; otherwise the first
   * timestamp-like text in the file name, normalised and parsed. A match that is not a
   * real date gives no start time; later matches are not tried.
   */
  function StartTime(manual: Option<string>, filename: string,
                     fromIso: string -> Option<DatetimeStamp.DateTime>): (r: Option<DatetimeStamp.DateTime>)
    ensures Text.Truthy(manual) && fromIso(manual.value).Some? ==> r == fromIso(manual.value)
    ensures !(Text.Truthy(manual) && fromIso(manual.value).Some?) && Search(filename, 0).None? ==> r.None?
    ensures !(Text.Truthy(manual) && fromIso(manual.value).Some?) && r.Some? ==> DatetimeStamp.Valid(r.value)
  {
    if Text.Truthy(manual) && fromIso(manual.value).Some? then fromIso(manual.value)
    else
      match Search(filename, 0)
      case None => None
      case Some(i) => DatetimeStamp.ParseStamp(NormalizeSeparators(filename[i..i + 19]))
  }

  predicate NoDigit(s: string) {
    forall k :: 0 <= k < |s| ==> !Text.IsDigit(s[k])
  }

  /** A stamp holds only digits, '-', ' ' and ':', so normalising leaves it alone. */
  lemma StampUnchangedByNormalizing(dt: DatetimeStamp.DateTime)
    requires DatetimeStamp.Valid(dt) && dt.year >= 1000
    ensures NormalizeSeparators(DatetimeStamp.Format(dt)) == DatetimeStamp.Format(dt)
  {
    var s := DatetimeStamp.Format(dt);
    DatetimeStamp.StampLayout(dt);
    forall i | 0 <= i < |s|
      ensures s[i] != '_' && s[i] != 'T' && s[i] != '.'
    {
      if DatetimeStamp.IsDigitPosition(i) {
        assert Text.IsDigit(s[i]);
      }
    }
  }

  /**
   * A file named with a `DatetimeStamp` after a digit-free prefix gives back the time of
   * the stamp, unless a manual start time overrides it.
   */
  lemma StampedNameGivesStartTime(prefix: string, dt: DatetimeStamp.DateTime, rest: string,
                                  manual: Option<string>, fromIso: string -> Option<DatetimeStamp.DateTime>)
    requires DatetimeStamp.Valid(dt) && dt.year >= 1000
    requires NoDigit(prefix)
    requires !(Text.Truthy(manual) && fromIso(manual.value).Some?)
    ensures StartTime(manual, prefix + DatetimeStamp.Format(dt) + rest, fromIso) == Some(dt)
  {
    var stamp := DatetimeStamp.Format(dt);
    var s := prefix + stamp + rest;
    var at := |prefix|;
    DatetimeStamp.StampLayout(dt);
    assert s[at..at + 19] == stamp;
    forall k | DatetimeStamp.IsDigitPosition(k)
      ensures Text.IsDigit(s[at + k])
    {
      assert s[at + k] == stamp[k];
    }
    assert s[at + 10] == stamp[10];
    assert MatchesAt(s, at);
    forall j | 0 <= j < at
      ensures !MatchesAt(s, j)
    {
      assert DatetimeStamp.IsDigitPosition(0);
      assert s[j + 0] == prefix[j];
    }
    SearchFinds(s, 0, at);
    StampUnchangedByNormalizing(dt);
    DatetimeStamp.ParseFormat(dt);
  }

  /** The recorder's own file names (`recording_<stamp>.wav`) carry their start time. */
  lemma RecordingNameGivesStartTime(dt: DatetimeStamp.DateTime, fromIso: string -> Option<DatetimeStamp.DateTime>)
    requires DatetimeStamp.Valid(dt) && dt.year >= 1000
    ensures StartTime(None, "recording_" + DatetimeStamp.Format(dt) + ".wav", fromIso) == Some(dt)
  {
    StampedNameGivesStartTime("recording_", dt, ".wav", None, fromIso);
  }

  // ---------------------------------------------------------------- chunks

  /** `int(sample_rate * (chunk_ms / 1000))`, replaced by 1 when it is 0. */
  function ChunkSize(sampleRate: int, chunkMs: int): (cs: int)
    ensures cs != 0
    ensures var exact := sampleRate as real * (chunkMs as real / 1000.0);
            (exact >= 1.0 ==> cs as real <= exact < cs as real + 1.0) &&
            (0.0 <= exact < 1.0 ==> cs == 1) &&
            (exact < 0.0 ==> cs < 0 || cs == 1)
  {
    var c := Numeric.Trunc(sampleRate as real * (chunkMs as real / 1000.0));
    if c == 0 then 1 else c
  }

  /** `len(audio) // chunk_size`, as a loop count (a negative count runs no iteration). */
  function TotalChunks(n: nat, cs: int): (t: nat)
    requires cs != 0
    ensures cs > 0 ==> t * cs <= n < t * cs + cs
    ensures cs < 0 ==> t == 0
  {
    var q := Numeric.FloorDiv(n, cs);
    if q > 0 then q else 0
  }

  lemma MulLe(a: int, b: int, c: int)
    requires 0 <= a <= b && c >= 0
    ensures a * c <= b * c
  {
  }

  /** Chunk `i`: samples `[i * cs, (i + 1) * cs)`. */
  function Chunk(audio: seq<real>, cs: int, i: nat): seq<real>
    requires cs > 0 && (i + 1) * cs <= |audio|
  {
    audio[i * cs..(i + 1) * cs]
  }

  /** The first `k` chunks. */
  function Chunks(audio: seq<real>, cs: int, k: nat): (r: seq<seq<real>>)
    requires cs > 0 && k * cs <= |audio|
    ensures |r| == k
  {
    seq(k, i requires 0 <= i < k =>
      MulLe(i + 1, k, cs);
      Chunk(audio, cs, i))
  }

  /**
   * The whole chunks, in order, are exactly the audio up to the last whole chunk; what
   * follows, shorter than one chunk, is not analysed.
   */
  lemma {:induction false} ChunksCoverPrefix(audio: seq<real>, cs: int, k: nat)
    requires cs > 0 && k * cs <= |audio|
    ensures Blocks.Concat(Chunks(audio, cs, k)) == audio[..k * cs]
  {
    if k > 0 {
      var m, n := (k - 1) * cs, k * cs;
      assert n == m + cs;
      var front, last := Chunks(audio, cs, k - 1), Chunk(audio, cs, k - 1);
      assert last == audio[m..n];
      assert Chunks(audio, cs, k) == front + [last] by {
        forall i | 0 <= i < k - 1
          ensures Chunks(audio, cs, k)[i] == front[i]
        {
          MulLe(i + 1, k - 1, cs);
        }
      }
      ChunksCoverPrefix(audio, cs, k - 1);
      Blocks.ConcatAppend(front, [last]);
      Blocks.ConcatOne(last);
      assert audio[..m] + audio[m..n] == audio[..n];
    }
  }

  // ---------------------------------------------------------------- rows

  /**
   * The metrics engine, per chunk: RMS, dBFS and flux; the meter on a window (`None`
   * for a `ValueError`); and the dBSPL conversion from (dBFS, sensitivity, reference).
   */
  datatype Engine = Engine(
    rms: seq<real> -> real,
    dbfs: seq<real> -> real,
    flux: seq<real> -> real,
    lufs: seq<real> -> Option<real>,
    dbspl: (real, real, real) -> real)

  /** The trailing LUFS window for a chunk ending at `end`: `[max(0, end - window), end)`. */
  function LufsStart(end: int, window: int): (s: int)
    ensures s == 0 || s == end - window
    ensures 0 <= s && s >= end - window
  {
    if end - window > 0 then end - window else 0
  }

  /** The LUFS column: the meter's value on a long enough window, and -70 otherwise. */
  function LufsAt(audio: seq<real>, end: nat, window: int, meter: seq<real> -> Option<real>): (r: real)
    requires end <= |audio|
    ensures var lo := LufsStart(end, window);
            (end - lo) as real >= window as real * MinLufsShare && meter(audio[lo..end]).Some? ==>
              r == meter(audio[lo..end]).value
    ensures var lo := LufsStart(end, window);
            (end - lo) as real < window as real * MinLufsShare || meter(audio[lo..end]).None? ==>
              r == LufsFloor
  {
    var lo := LufsStart(end, window);
    if (end - lo) as real >= window as real * MinLufsShare then
      match meter(audio[lo..end])
      case Some(v) => v
      case None => LufsFloor
    else LufsFloor
  }

  /** One CSV row; `timestampOffset` is the time after the start the row's timestamp shows. */
  datatype Row = Row(
    timeSec: real,
    timestampOffset: Option<real>,
    rms: real,
    dbfs: real,
    lufs: real,
    flux: real,
    dbspl: Option<real>)

  /**
   * What row `i` holds: its time is the end of chunk `i` in seconds, the chunk metrics
   * are the engine's on chunk `i`, LUFS is read at the chunk's end with a one-second
   * window, a timestamp exactly when there is a start time, and dBSPL exactly when a
   * sensitivity was loaded.
   */
  predicate RowDescribes(row: Row, a: Analyzer, cs: int, i: nat, start: Option<DatetimeStamp.DateTime>, e: Engine)
  {
    a.sampleRate > 0 && cs > 0 && (i + 1) * cs <= |a.audio| &&
    var chunk := Chunk(a.audio, cs, i);
    row.timeSec == ((i + 1) * cs) as real / a.sampleRate as real &&
    row.rms == e.rms(chunk) && row.dbfs == e.dbfs(chunk) && row.flux == e.flux(chunk) &&
    row.lufs == LufsAt(a.audio, (i + 1) * cs, a.sampleRate, e.lufs) &&
    (row.timestampOffset.Some? <==> start.Some?) &&
    (start.Some? ==> row.timestampOffset == Some(row.timeSec)) &&
    (row.dbspl.Some? <==> a.sensitivity.Some?) &&
    (a.sensitivity.Some? ==> row.dbspl == Some(e.dbspl(row.dbfs, a.sensitivity.value, a.reference)))
  }

  function RowAt(a: Analyzer, cs: int, i: nat, start: Option<DatetimeStamp.DateTime>, e: Engine): (row: Row)
    requires a.sampleRate > 0 && cs > 0 && (i + 1) * cs <= |a.audio|
    ensures RowDescribes(row, a, cs, i, start, e)
  {
    var chunk := Chunk(a.audio, cs, i);
    var end := (i + 1) * cs;
    var relTime := end as real / a.sampleRate as real;
    var dbfs := e.dbfs(chunk);
    assert Numeric.Trunc(a.sampleRate as real * 1.0) == a.sampleRate;
    Row(relTime,
        if start.Some? then Some(relTime) else None,
        e.rms(chunk), dbfs,
        LufsAt(a.audio, end, Numeric.Trunc(a.sampleRate as real * 1.0), e.lufs),
        e.flux(chunk),
        if a.sensitivity.Some? then Some(e.dbspl(dbfs, a.sensitivity.value, a.reference)) else None)
  }

  /** The rows for chunks of `cs` samples. */
  function RowsOf(a: Analyzer, cs: int, start: Option<DatetimeStamp.DateTime>, e: Engine): (rows: seq<Row>)
    requires a.sampleRate > 0 && cs > 0
    ensures |rows| == TotalChunks(|a.audio|, cs)
    ensures forall i :: 0 <= i < |rows| ==> RowDescribes(rows[i], a, cs, i, start, e)
  {
    var total := TotalChunks(|a.audio|, cs);
    seq(total, i requires 0 <= i < total =>
      MulLe(i + 1, total, cs);
      RowAt(a, cs, i, start, e))
  }

  /** The processing loop of `run_analysis`: one row per whole chunk, in order. */
  function Rows(a: Analyzer, chunkMs: int, start: Option<DatetimeStamp.DateTime>, e: Engine): (rows: seq<Row>)
    requires a.sampleRate > 0
    ensures var cs := ChunkSize(a.sampleRate, chunkMs);
            |rows| == TotalChunks(|a.audio|, cs) &&
            (cs > 0 ==> |rows| * cs <= |a.audio| < (|rows| + 1) * cs)
    ensures var cs := ChunkSize(a.sampleRate, chunkMs);
            forall i :: 0 <= i < |rows| ==>
              RowDescribes(rows[i], a, cs, i, start, e)
  {
    var cs := ChunkSize(a.sampleRate, chunkMs);
    if cs < 0 then [] else RowsOf(a, cs, start, e)
  }

  datatype Outcome = Skipped | Analysed(rows: seq<Row>)

  /** `run_analysis` up to the rows it saves: empty audio is skipped. */
  function RunAnalysis(a: Analyzer, chunkMs: int, manualStart: Option<string>, e: Engine,
                       fromIso: string -> Option<DatetimeStamp.DateTime>): (r: Outcome)
    requires a.sampleRate > 0
    ensures r.Skipped? <==> a.audio == []
    ensures r.Analysed? ==> r.rows == Rows(a, chunkMs, StartTime(manualStart, a.filename, fromIso), e)
  {
    if a.audio == [] then Skipped
    else Analysed(Rows(a, chunkMs, StartTime(manualStart, a.filename, fromIso), e))
  }

  // ---------------------------------------------------------------- LUFS window facts

  /** The window never reaches past the chunk's end and never covers more than one second. */
  lemma LufsWindowShape(end: nat, window: int, cs: int)
    requires window >= 0 && cs > 0 && cs <= end
    ensures var lo := LufsStart(end, window);
            lo <= end && end - lo <= window && (end >= window ==> end - lo == window)
    ensures cs <= window ==> LufsStart(end, window) <= end - cs
  {
  }

  /**
   * Rows whose chunk ends within the first 0.4 s show the floor, whatever the meter
   * says: their window is the audio so far, shorter than 0.4 of a second.
   */
  lemma EarlyRowsShowFloor(a: Analyzer, chunkMs: int, start: Option<DatetimeStamp.DateTime>, e: Engine, i: nat)
    requires a.sampleRate > 0
    requires i < |Rows(a, chunkMs, start, e)|
    requires ((i + 1) * ChunkSize(a.sampleRate, chunkMs)) as real < a.sampleRate as real * MinLufsShare
    ensures Rows(a, chunkMs, start, e)[i].lufs == LufsFloor
  {
    var cs := ChunkSize(a.sampleRate, chunkMs);
    var end := (i + 1) * cs;
    assert end <= a.sampleRate by {
      assert (end as real) < a.sampleRate as real;
    }
    assert LufsStart(end, a.sampleRate) == 0;
  }

  /** 48 kHz with the default 100 ms window gives chunks of 4800 samples. */
  lemma ChunkSizeExamples()
    ensures ChunkSize(48000, DefaultChunkMs) == 4800
    ensures ChunkSize(44100, 10) == 441
    ensures ChunkSize(8, 100) == 1
  {
  }
}
