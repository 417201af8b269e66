/** The format arithmetic of mixer/external/device.h: a device description,
    the two macros that derive its byte rate and block alignment, and the
    buffer-size macro. The C fields are fixed-width unsigned integers, so
    every product that lands in one is reduced modulo its width here. */
module AudioFormat {
  import opened Common

  /** `OutputDeviceDescription` and `InputDeviceDescription`: one struct under two names. */
  datatype DeviceDescription = DeviceDescription(
    idx: nat,            // uint32: device index
    format: nat,         // uint16: format tag
    channels: nat,       // uint16
    samplesPerSec: nat,  // uint32
    bitsPerSample: nat,  // uint16
    byteCount: nat,      // uint16: size of the extra format information
    bytesPerSec: nat,    // uint32, derived
    blockAlign: nat)     // uint16, derived

  /** Every field within the width of its C type. */
  predicate ValidDescription(d: DeviceDescription) {
    IsU32(d.idx) && IsU16(d.format) && IsU16(d.channels) && IsU32(d.samplesPerSec)
    && IsU16(d.bitsPerSample) && IsU16(d.byteCount) && IsU32(d.bytesPerSec) && IsU16(d.blockAlign)
  }

  /** C's `bits_per_sample / 8`: whole bytes per sample and channel. */
  function SampleBytes(d: DeviceDescription): nat {
    d.bitsPerSample / 8
  }

  /** `CALCULATE_OUTPUT_DEVICE_VALUES` and `CALCULATE_INPUT_DEVICE_VALUES`, whose
      bodies are the same. The byte rate is a product of unsigned 32-bit
      operands and wraps; the block alignment is computed in `int` and
      truncated to 16 bits by the assignment. Nothing else changes. */
  function CalculateDeviceValues(d: DeviceDescription): (r: DeviceDescription)
    ensures r.idx == d.idx && r.format == d.format && r.channels == d.channels
    ensures r.samplesPerSec == d.samplesPerSec && r.bitsPerSample == d.bitsPerSample
    ensures r.byteCount == d.byteCount
    ensures IsU32(r.bytesPerSec) && IsU16(r.blockAlign)
    ensures ValidDescription(d) ==> ValidDescription(r)
  {
    d.(bytesPerSec := (d.samplesPerSec * d.channels * SampleBytes(d)) % TWO_32,
       blockAlign := (d.channels * SampleBytes(d)) % TWO_16)
  }

  /** The macros only read the fields they do not write, so applying them
      twice is applying them once. */
  lemma CalculateDeviceValuesIdempotent(d: DeviceDescription)
    ensures CalculateDeviceValues(CalculateDeviceValues(d)) == CalculateDeviceValues(d)
  {
  }

  /** `(a * (b % 2^32)) % 2^32 == (a * b) % 2^32`: reducing an operand first
      does not change a wrapped product. */
  lemma MulMod(a: nat, b: nat)
    ensures (a * (b % TWO_32)) % TWO_32 == (a * b) % TWO_32
  {
    var q := b / TWO_32;
    assert b == q * TWO_32 + b % TWO_32;
    assert a * b == (a * q) * TWO_32 + a * (b % TWO_32);
    AddMultipleMod(a * (b % TWO_32), a * q);
  }

  /** Adding a multiple of 2^32 does not change the remainder. */
  lemma AddMultipleMod(x: nat, k: nat)
    ensures (k * TWO_32 + x) % TWO_32 == x % TWO_32
  {
    var q, r := x / TWO_32, x % TWO_32;
    assert x == q * TWO_32 + r;
    assert k * TWO_32 + x == (k + q) * TWO_32 + r;
  }

  /** When neither product overflows its field, the byte rate is the sample
      rate times the block alignment, as the WAVE format requires of
      `nAvgBytesPerSec`; with wrap-around the same holds modulo 2^32. */
  lemma BytesPerSecIsRateTimesAlign(d: DeviceDescription)
    requires d.channels * SampleBytes(d) < TWO_16
    ensures var r := CalculateDeviceValues(d);
      r.blockAlign == d.channels * SampleBytes(d)
      && r.bytesPerSec == (d.samplesPerSec * r.blockAlign) % TWO_32
      && (d.samplesPerSec * r.blockAlign < TWO_32 ==> r.bytesPerSec == d.samplesPerSec * r.blockAlign)
  {
    var r := CalculateDeviceValues(d);
    assert r.blockAlign == d.channels * SampleBytes(d);
    assert d.samplesPerSec * d.channels * SampleBytes(d) == d.samplesPerSec * r.blockAlign;
  }

  /** Stereo, 44100 Hz, 16 bits: 176400 bytes per second in blocks of 4. */
  lemma CdQuality(idx: nat)
    ensures var r := CalculateDeviceValues(DeviceDescription(idx, 1, 2, 44100, 16, 0, 0, 0));
      r.bytesPerSec == 176400 && r.blockAlign == 4
  {
  }

  /** `CALCULATE_BUFFSIZE(duration, fmt)`: bytes in `duration` seconds; every
      operand is promoted to `uint32`, so the product wraps. */
  function BuffSize(duration: nat, d: DeviceDescription): (n: nat)
    ensures IsU32(n)
  {
    (duration * d.channels * SampleBytes(d) * d.samplesPerSec) % TWO_32
  }

  /** For a description whose derived fields the macro computed, the buffer
      size is the duration times the byte rate (modulo 2^32, as in C). */
  lemma BuffSizeIsDurationTimesRate(duration: nat, d: DeviceDescription)
    ensures BuffSize(duration, d) == (duration * CalculateDeviceValues(d).bytesPerSec) % TWO_32
  {
    var p := d.samplesPerSec * d.channels * SampleBytes(d);
    MulMod(duration, p);
    assert duration * d.channels * SampleBytes(d) * d.samplesPerSec == duration * p;
  }

  /** `WAVEFORMATEX`, which `open_audio_odevice` and `open_audio_idevice` fill in. */
  datatype WaveFormat = WaveFormat(
    formatTag: nat, channels: nat, samplesPerSec: nat, avgBytesPerSec: nat,
    blockAlign: nat, bitsPerSample: nat, cbSize: nat)

  /** The field-by-field copy from a description, shared by both open functions. */
  function ToWaveFormat(d: DeviceDescription): (w: WaveFormat)
    ensures w.formatTag == d.format && w.channels == d.channels
    ensures w.samplesPerSec == d.samplesPerSec && w.avgBytesPerSec == d.bytesPerSec
    ensures w.blockAlign == d.blockAlign && w.bitsPerSample == d.bitsPerSample
    ensures w.cbSize == d.byteCount
  {
    WaveFormat(d.format, d.channels, d.samplesPerSec, d.bytesPerSec, d.blockAlign, d.bitsPerSample, d.byteCount)
  }

  /** `SoundDescription`: the format of a sound read from a file, and its extent. */
  datatype SoundDescription = SoundDescription(
    format: nat, channels: nat, samples: nat, samplesPerSec: nat, bitsPerSample: nat,
    byteCount: nat, bytesPerSec: nat, blockAlign: nat, size: nat)
}
