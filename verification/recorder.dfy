/**
 * `AudioStreamsRecorder`: WAV segments written one after another, a new one started when
 * the current one holds the rotation length. The clock reading each file is named after,
 * whether the file system lets a file be created and whether a write succeeds are
 * inputs; the bytes themselves are represented by their count.
 */
module Recorder {
  import opened Wrappers
  import Numeric
  import Paths
  import DatetimeStamp

  const RotationDefaultSeconds: int := 3600
  const DefaultSampleRate: int := 48000
  const DefaultRecordingPath: string := "recordings"

  datatype Recorder = Recorder(
    basePath: Paths.PurePath,
    sampleRate: int,
    channels: int,
    sampleWidth: int,
    rotationFrames: int,
    isOpen: bool,
    currentFileFrames: int,
    current: Option<Paths.PurePath>,     // the file being written, while one is open
    segments: seq<Paths.PurePath>)       // every file opened so far, in order

  /**
   * What holds between calls: a file is open exactly when there is a handle; while open,
   * the `wave` header setters accepted the parameters and the frame counter is below the
   * rotation length (when that is positive).
   */
  predicate Inv(r: Recorder) {
    HandleMatches(r) &&
    (r.isOpen ==>
       HeaderAccepted(r) && 0 <= r.currentFileFrames &&
       (r.rotationFrames > 0 ==> r.currentFileFrames < r.rotationFrames))
  }

  /** `_is_open` is set exactly when there is a `_wave_file`. */
  predicate HandleMatches(r: Recorder) {
    r.isOpen <==> r.current.Some?
  }

  /** `setnchannels`, `setsampwidth` and `setframerate` raise outside these ranges. */
  predicate HeaderAccepted(r: Recorder) {
    r.channels >= 1 && 1 <= r.sampleWidth <= 4 && r.sampleRate > 0
  }

  /** The constructor: nothing is open and the rotation length is counted in frames. */
  function NewRecorder(basePath: Paths.PurePath, sampleRate: int, channels: int, sampleWidth: int,
                       rotationSeconds: int): (r: Recorder)
    ensures r.rotationFrames == rotationSeconds * sampleRate
    ensures !r.isOpen && r.currentFileFrames == 0 && r.segments == []
    ensures r.basePath == basePath && r.sampleRate == sampleRate
    ensures r.channels == channels && r.sampleWidth == sampleWidth
    ensures Inv(r)
  {
    Recorder(basePath, sampleRate, channels, sampleWidth, rotationSeconds * sampleRate, false, 0, None, [])
  }

  /** With every default: one hour at 48 kHz, mono, 16-bit, under "recordings". */
  lemma DefaultRotation()
    ensures NewRecorder(Paths.Parse(DefaultRecordingPath), DefaultSampleRate, 1, 2, RotationDefaultSeconds).rotationFrames
            == 172800000
  {
  }

  /**
   * `_generate_filename`: a base path with a suffix names the file itself, stamped before
   * the suffix, in the base's parent; any other base is a directory holding
   * `recording_<stamp>.wav`.
   */
  function GenerateFilename(base: Paths.PurePath, stamp: string): (p: Paths.PurePath)
    ensures Paths.Valid(p)
  {
    if Paths.Suffix(base) != [] then
      Paths.Div(Paths.Parent(base), Paths.Stem(base) + "_" + stamp + Paths.Suffix(base))
    else
      Paths.Div(base, "recording_" + stamp + ".wav")
  }

  lemma NameCharacters(n: string, a: string, b: string)
    requires Paths.NoChar(a, '/') && Paths.NoChar(b, '/')
    requires n == a + b
    ensures Paths.NoChar(n, '/')
  {
    Paths.NoCharAppend(a, b, '/');
  }

  /** The stem and suffix of a name hold no '/' when the name holds none. */
  lemma SuffixPartsNoSlash(name: string)
    requires Paths.NoChar(name, '/')
    ensures Paths.NoChar(Paths.SplitSuffix(name).0, '/') && Paths.NoChar(Paths.SplitSuffix(name).1, '/')
  {
    var (stem, suffix) := Paths.SplitSuffix(name);
    forall k | 0 <= k < |stem| ensures stem[k] != '/' { assert stem[k] == name[k]; }
    forall k | 0 <= k < |suffix| ensures suffix[k] != '/' { assert suffix[k] == name[|stem| + k]; }
  }

  /** The stamped name built from a name with a suffix is a plain name. */
  lemma StampedNameIsName(name: string, stamp: string)
    requires Paths.NoChar(name, '/') && Paths.NoChar(stamp, '/')
    requires Paths.SplitSuffix(name).1 != []
    ensures Paths.IsName(Paths.SplitSuffix(name).0 + "_" + stamp + Paths.SplitSuffix(name).1)
  {
    var (stem, suffix) := Paths.SplitSuffix(name);
    var mid := "_" + stamp;
    var n := stem + mid + suffix;
    assert n == stem + "_" + stamp + suffix;
    SuffixPartsNoSlash(name);
    Paths.NoCharAppend("_", stamp, '/');
    Paths.NoCharAppend(stem, mid, '/');
    NameCharacters(n, stem + mid, suffix);
    assert |n| >= 2;
  }

  /**
   * A base with a suffix: the file lies in the base's parent, keeps the base's suffix,
   * and its stem is the base's stem with the stamp appended.
   */
  lemma FilenameBesideBase(base: Paths.PurePath, stamp: string)
    requires Paths.Valid(base) && Paths.NoChar(stamp, '/') && Paths.NoChar(stamp, '.')
    requires Paths.Suffix(base) != []
    ensures var p := GenerateFilename(base, stamp);
            Paths.Parent(p) == Paths.Parent(base) &&
            Paths.Name(p) == Paths.Stem(base) + "_" + stamp + Paths.Suffix(base) &&
            Paths.Suffix(p) == Paths.Suffix(base) && Paths.Stem(p) == Paths.Stem(base) + "_" + stamp
  {
    var stem, suffix := Paths.Stem(base), Paths.Suffix(base);
    var n := stem + "_" + stamp + suffix;
    assert Paths.IsName(Paths.Name(base));
    StampedNameIsName(Paths.Name(base), stamp);
    var parent := Paths.Parent(base);
    var p := GenerateFilename(base, stamp);
    assert p == Paths.Div(parent, n);
    Paths.DivName(parent, n);
    StampedSuffix(stem, stamp, suffix);
  }

  lemma StampedSuffix(stem: string, stamp: string, suffix: string)
    requires stem != [] && Paths.NoChar(stamp, '.')
    requires |suffix| >= 2 && suffix[0] == '.' && Paths.NoChar(suffix[1..], '.')
    ensures Paths.SplitSuffix(stem + "_" + stamp + suffix) == (stem + "_" + stamp, suffix)
  {
    var mid := "_" + stamp;
    Paths.NoCharAppend("_", stamp, '.');
    Paths.SuffixOfStamped(stem, mid, suffix);
    assert stem + mid + suffix == stem + "_" + stamp + suffix;
    assert stem + mid == stem + "_" + stamp;
  }

  /** A base without a suffix is the directory: the file is `recording_<stamp>.wav` in it. */
  lemma FilenameInsideBase(base: Paths.PurePath, stamp: string)
    requires Paths.Valid(base) && Paths.NoChar(stamp, '/') && Paths.NoChar(stamp, '.')
    requires Paths.Suffix(base) == []
    ensures var p := GenerateFilename(base, stamp);
            Paths.Parent(p) == base && Paths.Name(p) == "recording_" + stamp + ".wav" &&
            Paths.Suffix(p) == ".wav"
  {
    var n := "recording_" + stamp + ".wav";
    RecordingNameIsName(stamp);
    var p := GenerateFilename(base, stamp);
    assert p == Paths.Div(base, n);
    Paths.DivName(base, n);
    assert Paths.Name(p) == n;
    RecordingNameSuffix(stamp);
  }

  lemma RecordingNameIsName(stamp: string)
    requires Paths.NoChar(stamp, '/')
    ensures Paths.IsName("recording_" + stamp + ".wav")
  {
    var mid := "_" + stamp;
    var n := "recording" + mid + ".wav";
    assert n == "recording_" + stamp + ".wav";
    Paths.NoCharAppend("_", stamp, '/');
    Paths.NoCharAppend("recording", mid, '/');
    NameCharacters(n, "recording" + mid, ".wav");
    assert n[0] == 'r';
  }

  lemma RecordingNameSuffix(stamp: string)
    requires Paths.NoChar(stamp, '.')
    ensures Paths.SplitSuffix("recording_" + stamp + ".wav").1 == ".wav"
  {
    var mid := "_" + stamp;
    assert "recording" + mid + ".wav" == "recording_" + stamp + ".wav";
    Paths.NoCharAppend("_", stamp, '.');
    assert Paths.NoChar(".wav"[1..], '.');
    Paths.SuffixOfStamped("recording", mid, ".wav");
  }

  /** The clock reading `DatetimeStamp.get` formats can be put in a file name. */
  lemma StampFitsFilename(dt: DatetimeStamp.DateTime)
    requires DatetimeStamp.Valid(dt) && dt.year >= 1000
    ensures Paths.NoChar(DatetimeStamp.Format(dt), '/') && Paths.NoChar(DatetimeStamp.Format(dt), '.')
  {
    DatetimeStamp.StampCharacters(dt);
  }

  // ---------------------------------------------------------------- open / close

  /**
   * `open`. Already open, nothing happens. Otherwise the file is created (`created`) and
   * the header set; on success the counter starts at 0, on failure the recorder stays
   * closed and the error is raised (`.1`).
   */
  function Open(s: Recorder, stamp: string, created: bool): (r: (Recorder, bool))
    ensures s.isOpen ==> r == (s, false)
    ensures !s.isOpen ==> (r.1 <==> !(created && HeaderAccepted(s)))
    ensures !s.isOpen && r.1 ==> r.0 == s
    ensures !s.isOpen && !r.1 ==>
              r.0.isOpen && r.0.currentFileFrames == 0 &&
              r.0.current == Some(GenerateFilename(s.basePath, stamp)) &&
              r.0.segments == s.segments + [GenerateFilename(s.basePath, stamp)]
    ensures Inv(s) ==> Inv(r.0)
    ensures !s.isOpen && s.current.None? ==> Inv(r.0)
    ensures r.0.basePath == s.basePath && r.0.rotationFrames == s.rotationFrames
  {
    if s.isOpen then (s, false)
    else
      var path := GenerateFilename(s.basePath, stamp);
      if created && HeaderAccepted(s) then
        (s.(isOpen := true, currentFileFrames := 0, current := Some(path), segments := s.segments + [path]), false)
      else
        (s, true)
  }

  /** `close`: whatever closing the handle does, the recorder ends closed. */
  function Close(s: Recorder): (r: Recorder)
    ensures s.isOpen && s.current.Some? ==> r == s.(isOpen := false, current := None)
    ensures !(s.isOpen && s.current.Some?) ==> r == s
    ensures Inv(s) ==> Inv(r) && !r.isOpen && r.current.None?
  {
    if s.isOpen && s.current.Some? then s.(isOpen := false, current := None) else s
  }

  /** `_rotate`: close the current file if one is open, then open a new one. */
  function Rotate(s: Recorder, stamp: string, created: bool): (r: (Recorder, bool))
    requires HandleMatches(s)
    ensures Inv(r.0)
    ensures r.1 <==> !(created && HeaderAccepted(s))
    ensures !r.1 ==> r.0.isOpen && r.0.currentFileFrames == 0 &&
                     r.0.segments == s.segments + [GenerateFilename(s.basePath, stamp)]
    ensures r.1 ==> !r.0.isOpen && r.0.segments == s.segments
  {
    Open(if s.isOpen then Close(s) else s, stamp, created)
  }

  // ---------------------------------------------------------------- write

  /** `len(audio_bytes) // (channels * sample_width)`. */
  function FramesIn(byteCount: nat, channels: int, sampleWidth: int): (f: int)
    requires channels * sampleWidth > 0
    ensures f >= 0
    ensures f * (channels * sampleWidth) <= byteCount < (f + 1) * (channels * sampleWidth)
  {
    Numeric.FloorDiv(byteCount, channels * sampleWidth)
  }

  /**
   * `write`. Closed, nothing happens. A write that raises is logged and not counted.
   * Otherwise the chunk's frames are counted and, at the rotation length, the file is
   * rotated; a failure to open the next file is logged and leaves the recorder closed.
   */
  function Write(s: Recorder, byteCount: nat, writeOk: bool, stamp: string, created: bool): (r: Recorder)
    requires Inv(s)
    ensures Inv(r)
    ensures !s.isOpen || !writeOk ==> r == s
    ensures s.isOpen && writeOk ==>
              var total := s.currentFileFrames + FramesIn(byteCount, s.channels, s.sampleWidth);
              (total < s.rotationFrames ==> r == s.(currentFileFrames := total)) &&
              (total >= s.rotationFrames ==>
                 (r.isOpen <==> created) &&
                 (created ==> r.currentFileFrames == 0 &&
                              r.segments == s.segments + [GenerateFilename(s.basePath, stamp)]) &&
                 (!created ==> r.segments == s.segments))
    ensures r.basePath == s.basePath && r.rotationFrames == s.rotationFrames
  {
    if !s.isOpen || !writeOk then s
    else
      var total := s.currentFileFrames + FramesIn(byteCount, s.channels, s.sampleWidth);
      var counted := s.(currentFileFrames := total);
      if total >= s.rotationFrames then
        Rotate(counted, stamp, created).0
      else
        counted
  }

  /** The writes of a sequence of chunks, each with its outcome and the clock at that moment. */
  datatype Chunk = Chunk(byteCount: nat, writeOk: bool, stamp: string, created: bool)

  function WriteAll(s: Recorder, chunks: seq<Chunk>): (r: Recorder)
    requires Inv(s)
    ensures Inv(r)
    decreases |chunks|
  {
    if chunks == [] then s
    else WriteAll(Write(s, chunks[0].byteCount, chunks[0].writeOk, chunks[0].stamp, chunks[0].created), chunks[1..])
  }

  /** The frames in a sequence of chunks that are written without error. */
  function FramesWritten(chunks: seq<Chunk>, channels: int, sampleWidth: int): (n: int)
    requires channels * sampleWidth > 0
    ensures n >= 0
    decreases |chunks|
  {
    if chunks == [] then 0
    else
      (if chunks[0].writeOk then FramesIn(chunks[0].byteCount, channels, sampleWidth) else 0) +
      FramesWritten(chunks[1..], channels, sampleWidth)
  }

  /**
   * Below the rotation length no file is started: the counter of the open file grows by
   * exactly the frames written, and the same file stays open.
   */
  lemma {:induction false} CounterCountsFrames(s: Recorder, chunks: seq<Chunk>)
    requires Inv(s) && s.isOpen
    requires s.currentFileFrames + FramesWritten(chunks, s.channels, s.sampleWidth) < s.rotationFrames
    ensures WriteAll(s, chunks) ==
            s.(currentFileFrames := s.currentFileFrames + FramesWritten(chunks, s.channels, s.sampleWidth))
    decreases |chunks|
  {
    if chunks != [] {
      var c := chunks[0];
      var next := Write(s, c.byteCount, c.writeOk, c.stamp, c.created);
      var f := if c.writeOk then FramesIn(c.byteCount, s.channels, s.sampleWidth) else 0;
      assert next == s.(currentFileFrames := s.currentFileFrames + f);
      CounterCountsFrames(next, chunks[1..]);
    }
  }

  /**
   * A recorder that is never closed from outside never loses a segment: every file it
   * opens is recorded, so the segments only grow.
   */
  lemma {:induction false} SegmentsOnlyGrow(s: Recorder, chunks: seq<Chunk>)
    requires Inv(s)
    ensures |WriteAll(s, chunks).segments| >= |s.segments|
    ensures WriteAll(s, chunks).segments[..|s.segments|] == s.segments
    decreases |chunks|
  {
    if chunks != [] {
      var c := chunks[0];
      var next := Write(s, c.byteCount, c.writeOk, c.stamp, c.created);
      assert next.segments[..|s.segments|] == s.segments;
      SegmentsOnlyGrow(next, chunks[1..]);
      var r := WriteAll(next, chunks[1..]);
      assert r.segments[..|s.segments|] == r.segments[..|next.segments|][..|s.segments|];
    }
  }
}
