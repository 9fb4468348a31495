/**
 * Start-up of the microphone calibrator: where the designed filter is cached, when a
 * cached filter is reused and when the filter is designed again from the calibration
 * file. File-system effects (`os.path.exists`, `np.load`, `np.save`) are inputs.
 */
module Calibrator {
  import opened Wrappers
  import Text
  import Numeric
  import Paths
  import CalibrationFile
  import FirFilter

  const DefaultNumTaps: int := 1024

  /** What the cache path holds: nothing, an array `np.load` cannot read, or taps. */
  datatype CacheLookup = NoCacheFile | Unreadable | Loaded(taps: seq<real>)

  /** How the filter was obtained; `saved` is whether `np.save` succeeded. */
  datatype Origin = FromCache | Designed(saved: bool)

  datatype Calibrator = Calibrator(cachePath: string, filter: FirFilter.FilterState, origin: Origin)

  // ---------------------------------------------------------------- cache naming

  /** `<stem>_fir_<num_taps>taps_<int(sample_rate)>hz.npy`. */
  function CacheFileName(stem: string, numTaps: int, sampleRate: real): string {
    stem + ("_fir_" + (Text.IntToString(numTaps) + ("taps_" +
      (Text.IntToString(Numeric.Trunc(sampleRate)) + "hz.npy"))))
  }

  /** The calibration file's base name without its extension. */
  function CalibrationStem(calibrationPath: string): string {
    Paths.Splitext(Paths.Basename(calibrationPath)).0
  }

  /** The cache lives in the calibration file's directory. */
  function CachePath(calibrationPath: string, numTaps: int, sampleRate: real): string {
    Paths.Join(Paths.Dirname(calibrationPath),
               CacheFileName(CalibrationStem(calibrationPath), numTaps, sampleRate))
  }

  lemma IntTextHas(i: int, c: char)
    requires !Text.IsDigit(c) && c != '-'
    ensures Paths.NoChar(Text.IntToString(i), c)
  {
  }

  lemma StemHasNoSlash(calibrationPath: string)
    ensures Paths.NoChar(CalibrationStem(calibrationPath), '/')
  {
    var b := Paths.Basename(calibrationPath);
    var r := Paths.Splitext(b);
    assert r.0 == b[..|r.0|];
  }

  lemma CacheNameHasNoSlash(stem: string, numTaps: int, sampleRate: real)
    requires Paths.NoChar(stem, '/')
    ensures CacheFileName(stem, numTaps, sampleRate) != []
    ensures Paths.NoChar(CacheFileName(stem, numTaps, sampleRate), '/')
  {
    var a := Text.IntToString(numTaps);
    var b := Text.IntToString(Numeric.Trunc(sampleRate));
    IntTextHas(numTaps, '/');
    IntTextHas(Numeric.Trunc(sampleRate), '/');
    Paths.NoCharAppend(b, "hz.npy", '/');
    Paths.NoCharAppend("taps_", b + "hz.npy", '/');
    Paths.NoCharAppend(a, "taps_" + (b + "hz.npy"), '/');
    Paths.NoCharAppend("_fir_", a + ("taps_" + (b + "hz.npy")), '/');
    Paths.NoCharAppend(stem, "_fir_" + (a + ("taps_" + (b + "hz.npy"))), '/');
  }

  /** The cache file sits next to the calibration file and carries the computed name. */
  lemma CacheNextToCalibrationFile(calibrationPath: string, numTaps: int, sampleRate: real)
    ensures Paths.Dirname(CachePath(calibrationPath, numTaps, sampleRate)) == Paths.Dirname(calibrationPath)
    ensures Paths.Basename(CachePath(calibrationPath, numTaps, sampleRate))
            == CacheFileName(CalibrationStem(calibrationPath), numTaps, sampleRate)
  {
    var stem := CalibrationStem(calibrationPath);
    StemHasNoSlash(calibrationPath);
    CacheNameHasNoSlash(stem, numTaps, sampleRate);
    var name := CacheFileName(stem, numTaps, sampleRate);
    Paths.DirnameOfJoin(calibrationPath, name);
    Paths.BasenameOfJoin(Paths.Dirname(calibrationPath), name);
  }

  /** Two texts that both continue with `c` right after a `c`-free head split alike. */
  lemma SplitAtChar(a1: string, r1: string, a2: string, r2: string, c: char)
    requires Paths.NoChar(a1, c) && Paths.NoChar(a2, c)
    requires r1 != [] && r1[0] == c && r2 != [] && r2[0] == c
    requires a1 + r1 == a2 + r2
    ensures a1 == a2 && r1 == r2
  {
    var s := a1 + r1;
    forall k | 0 <= k < |a1|
      ensures s[k] != c
    {
      assert s[k] == a1[k];
    }
    assert s[|a1|] == c;
    Paths.FirstIndexAt(s, c, |a1|);
    var t := a2 + r2;
    forall k | 0 <= k < |a2|
      ensures t[k] != c
    {
      assert t[k] == a2[k];
    }
    assert t[|a2|] == c;
    Paths.FirstIndexAt(t, c, |a2|);
    assert a1 == s[..|a1|] && a2 == t[..|a2|];
    assert r1 == s[|a1|..] && r2 == t[|a2|..];
  }

  lemma DropCommonPrefix(p: string, x: string, y: string)
    requires p + x == p + y
    ensures x == y
  {
    assert x == (p + x)[|p|..];
    assert y == (p + y)[|p|..];
  }

  /** Different tap counts or integer rates never share a cache file. */
  lemma CacheNameInjective(stem: string, n1: int, sr1: real, n2: int, sr2: real)
    requires CacheFileName(stem, n1, sr1) == CacheFileName(stem, n2, sr2)
    ensures n1 == n2 && Numeric.Trunc(sr1) == Numeric.Trunc(sr2)
  {
    var a1, a2 := Text.IntToString(n1), Text.IntToString(n2);
    var b1, b2 := Text.IntToString(Numeric.Trunc(sr1)), Text.IntToString(Numeric.Trunc(sr2));
    DropCommonPrefix(stem, "_fir_" + (a1 + ("taps_" + (b1 + "hz.npy"))),
                           "_fir_" + (a2 + ("taps_" + (b2 + "hz.npy"))));
    DropCommonPrefix("_fir_", a1 + ("taps_" + (b1 + "hz.npy")), a2 + ("taps_" + (b2 + "hz.npy")));
    IntTextHas(n1, 't');
    IntTextHas(n2, 't');
    SplitAtChar(a1, "taps_" + (b1 + "hz.npy"), a2, "taps_" + (b2 + "hz.npy"), 't');
    Text.IntToStringInjective(n1, n2);
    DropCommonPrefix("taps_", b1 + "hz.npy", b2 + "hz.npy");
    IntTextHas(Numeric.Trunc(sr1), 'h');
    IntTextHas(Numeric.Trunc(sr2), 'h');
    SplitAtChar(b1, "hz.npy", b2, "hz.npy", 'h');
    Text.IntToStringInjective(Numeric.Trunc(sr1), Numeric.Trunc(sr2));
  }

  // ---------------------------------------------------------------- start-up decision

  /**
   * The constructor with the cached-length check made a parameter: the program as
   * written accepts a cached array whose length is `numTaps`.
   */
  function StartWith(acceptedLength: int, calibrationPath: string, file: CalibrationFile.FileContents,
                     cache: CacheLookup, saveOk: bool, sampleRate: real, numTaps: int,
                     forceWrite: bool, exp10: real -> real, firwin2: FirFilter.Designer)
    : (r: Result<Calibrator, CalibrationFile.ParseError>)
    requires sampleRate > 0.0 && numTaps >= 2 && acceptedLength >= 1
    ensures r.Success? ==> r.value.cachePath == CachePath(calibrationPath, numTaps, sampleRate)
    ensures r.Success? ==> FirFilter.Valid(r.value.filter)
    ensures r.Success? ==> forall i :: 0 <= i < |r.value.filter.history| ==> r.value.filter.history[i] == 0.0
    ensures r.Success? && r.value.origin == FromCache <==>
              !forceWrite && cache.Loaded? && |cache.taps| == acceptedLength
    ensures r.Success? && r.value.origin == FromCache ==> r.value.filter.taps == cache.taps
    ensures r.Success? && r.value.origin.Designed? ==>
              r.value.origin.saved == saveOk && |r.value.filter.taps| == numTaps - 1
    ensures r.Failure? <==>
              !(!forceWrite && cache.Loaded? && |cache.taps| == acceptedLength) &&
              CalibrationFile.ParseFrequencyResponse(file).Failure?
    ensures r.Failure? ==> r.error == CalibrationFile.ParseFrequencyResponse(file).error
  {
    var path := CachePath(calibrationPath, numTaps, sampleRate);
    if !forceWrite && cache.Loaded? && |cache.taps| == acceptedLength then
      Success(Calibrator(path, FirFilter.Initial(cache.taps), FromCache))
    else
      var curve :- CalibrationFile.ParseFrequencyResponse(file);
      var taps := FirFilter.DesignFilter(curve.freqs, curve.gainsDb, sampleRate, numTaps, exp10, firwin2);
      Success(Calibrator(path, FirFilter.Initial(taps), Designed(saveOk)))
  }

  /** `AudioDeviceCalibrator.__init__` as written: a cached array must hold `num_taps` taps. */
  function Init(calibrationPath: string, file: CalibrationFile.FileContents, cache: CacheLookup,
                saveOk: bool, sampleRate: real, numTaps: int, forceWrite: bool,
                exp10: real -> real, firwin2: FirFilter.Designer)
    : (r: Result<Calibrator, CalibrationFile.ParseError>)
    requires sampleRate > 0.0 && numTaps >= 2
    ensures forceWrite && r.Success? ==> r.value.origin.Designed?
    ensures r.Success? && r.value.origin == FromCache ==> |r.value.filter.taps| == numTaps
    ensures r.Success? && r.value.origin.Designed? ==> |r.value.filter.taps| == numTaps - 1
  {
    StartWith(numTaps, calibrationPath, file, cache, saveOk, sampleRate, numTaps, forceWrite, exp10, firwin2)
  }

  /** The constructor with the length check matched to what the designer returns. */
  function InitCorrected(calibrationPath: string, file: CalibrationFile.FileContents, cache: CacheLookup,
                         saveOk: bool, sampleRate: real, numTaps: int, forceWrite: bool,
                         exp10: real -> real, firwin2: FirFilter.Designer)
    : (r: Result<Calibrator, CalibrationFile.ParseError>)
    requires sampleRate > 0.0 && numTaps >= 2
    ensures forceWrite && r.Success? ==> r.value.origin.Designed?
    ensures r.Success? ==> |r.value.filter.taps| == numTaps - 1
  {
    StartWith(numTaps - 1, calibrationPath, file, cache, saveOk, sampleRate, numTaps, forceWrite, exp10, firwin2)
  }

  /** The cache after a start-up: a designed filter whose save succeeded is stored. */
  function CacheAfter(cache: CacheLookup, c: Calibrator): (next: CacheLookup)
    ensures c.origin == Designed(true) ==> next == Loaded(c.filter.taps)
    ensures c.origin != Designed(true) ==> next == cache
  {
    if c.origin == Designed(true) then Loaded(c.filter.taps) else cache
  }

  /**
   * As written, a start-up that finds the cache its predecessor saved still designs the
   * filter again: the saved array has `num_taps - 1` taps and the check wants `num_taps`.
   */
  lemma SavedCacheNeverReused(calibrationPath: string, file: CalibrationFile.FileContents,
                              cache: CacheLookup, sampleRate: real, numTaps: int,
                              exp10: real -> real, firwin2: FirFilter.Designer, saveOk2: bool)
    requires sampleRate > 0.0 && numTaps >= 2
    requires Init(calibrationPath, file, cache, true, sampleRate, numTaps, false, exp10, firwin2).Success?
    requires Init(calibrationPath, file, cache, true, sampleRate, numTaps, false, exp10, firwin2).value.origin.Designed?
    ensures var first := Init(calibrationPath, file, cache, true, sampleRate, numTaps, false, exp10, firwin2).value;
            var second := Init(calibrationPath, file, CacheAfter(cache, first), saveOk2, sampleRate, numTaps,
                               false, exp10, firwin2);
            second.Success? && second.value.origin == Designed(saveOk2) &&
            second.value.filter == first.filter
  {
  }

  /** Corrected, the second start-up reuses the saved filter, whatever the calibration file now says. */
  lemma SavedCacheReused(calibrationPath: string, file: CalibrationFile.FileContents, file2: CalibrationFile.FileContents,
                         cache: CacheLookup, sampleRate: real, numTaps: int,
                         exp10: real -> real, firwin2: FirFilter.Designer, saveOk2: bool)
    requires sampleRate > 0.0 && numTaps >= 2
    requires InitCorrected(calibrationPath, file, cache, true, sampleRate, numTaps, false, exp10, firwin2).Success?
    requires InitCorrected(calibrationPath, file, cache, true, sampleRate, numTaps, false, exp10, firwin2).value.origin.Designed?
    ensures var first := InitCorrected(calibrationPath, file, cache, true, sampleRate, numTaps, false, exp10, firwin2).value;
            var second := InitCorrected(calibrationPath, file2, CacheAfter(cache, first), saveOk2, sampleRate, numTaps,
                                        false, exp10, firwin2);
            second.Success? && second.value.origin == FromCache && second.value.filter == first.filter
  {
  }
}
