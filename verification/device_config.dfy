/**
 * `AudioDeviceConfig`: the parameters an input stream is opened with. The block size is
 * the number of whole frames in one buffer, `int(sample_rate * buffer_seconds)`.
 */
module DeviceConfig {
  import Numeric
  import DeviceSelector

  const DefaultDtype: string := "float32"
  const DefaultHighPriority: bool := false

  datatype AudioDeviceConfig = AudioDeviceConfig(
    id: int,
    sampleRate: real,
    bufferSeconds: real,
    dtype: string,
    blockSize: int,
    highPriority: bool)

  /** The constructor: the device's id, the rate and buffer as given, and the block size. */
  function NewConfig(device: DeviceSelector.Selected, sampleRate: real, bufferSeconds: real,
                     highPriority: bool, dtype: string): (c: AudioDeviceConfig)
    ensures c.id == device.id
    ensures c.sampleRate == sampleRate && c.bufferSeconds == bufferSeconds
    ensures c.dtype == dtype && c.highPriority == highPriority
    ensures sampleRate * bufferSeconds >= 0.0 ==>
              0 <= c.blockSize && c.blockSize as real <= sampleRate * bufferSeconds < c.blockSize as real + 1.0
    ensures sampleRate * bufferSeconds < 0.0 ==>
              c.blockSize <= 0 && c.blockSize as real - 1.0 < sampleRate * bufferSeconds
  {
    AudioDeviceConfig(device.id, sampleRate, bufferSeconds, dtype,
                      Numeric.Trunc(sampleRate * bufferSeconds), highPriority)
  }

  /** The constructor with `high_priority` and `dtype` left at their defaults. */
  function NewDefaultConfig(device: DeviceSelector.Selected, sampleRate: real, bufferSeconds: real)
    : (c: AudioDeviceConfig)
    ensures c.dtype == "float32" && !c.highPriority
    ensures c.blockSize == NewConfig(device, sampleRate, bufferSeconds, true, "int16").blockSize
  {
    NewConfig(device, sampleRate, bufferSeconds, DefaultHighPriority, DefaultDtype)
  }

  /**
   * A block never lasts longer than the buffer asked for, and falls short of it by less
   * than one sample period.
   */
  lemma BlockFitsBuffer(device: DeviceSelector.Selected, sampleRate: real, bufferSeconds: real,
                        highPriority: bool, dtype: string)
    requires sampleRate > 0.0 && bufferSeconds >= 0.0
    ensures var n := NewConfig(device, sampleRate, bufferSeconds, highPriority, dtype).blockSize as real;
            n / sampleRate <= bufferSeconds < (n + 1.0) / sampleRate
  {
    var n := NewConfig(device, sampleRate, bufferSeconds, highPriority, dtype).blockSize as real;
    var x := sampleRate * bufferSeconds;
    assert 0.0 <= x by { MulNonNeg(sampleRate, bufferSeconds); }
    assert n <= x < n + 1.0;
    DivBelow(n, x, sampleRate);
    DivAbove(x, n + 1.0, sampleRate);
    assert x / sampleRate == bufferSeconds;
  }

  lemma MulNonNeg(a: real, b: real)
    requires a >= 0.0 && b >= 0.0
    ensures a * b >= 0.0
  {
  }

  lemma DivBelow(a: real, b: real, d: real)
    requires a <= b && d > 0.0
    ensures a / d <= b / d
  {
  }

  lemma DivAbove(a: real, b: real, d: real)
    requires a < b && d > 0.0
    ensures a / d < b / d
  {
  }

  /** 48 kHz with a 2 s buffer is 96000 frames; 44.1 kHz with 1 s is 44100. */
  lemma BlockSizeExamples(device: DeviceSelector.Selected)
    ensures NewConfig(device, 48000.0, 2.0, true, "float32").blockSize == 96000
    ensures NewDefaultConfig(device, 44100.0, 1.0).blockSize == 44100
  {
  }
}
