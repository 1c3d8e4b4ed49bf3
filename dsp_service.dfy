/**
 * The signal pipeline of the synthesizer: generating a sample buffer, mixing buffers, amplitude and
 * frequency modulation, the peak search and the 16-bit PCM encoder.
 *
 * Samples are reals: the model ignores float rounding. Every operation allocates a fresh array and
 * fills it in a loop, as the Java code does; each method is proved against a specification function
 * on sequences, and the properties of the pipeline are lemmas about those functions.
 */
module DSPService {
  import opened JavaNumerics
  import opened AudioFormatConstants

  const MaxAmplitude: real := 1.0
  const MinAmplitude: real := -1.0

  /** `Short.MAX_VALUE`, the full-scale 16-bit sample. */
  const ShortMaxValue: int := 32767

  /** `Math.PI` (declared as 3.14159265358979323846), written as the shortest decimal of its double value. */
  const Pi: real := 3.141592653589793

  /** A per-sample waveform formula `(amplitude, frequency, phase, n) -> sample`, left uninterpreted. */
  type WaveFunction = (real, real, real, int) -> real

  // ---------------------------------------------------------------------------------------------
  // Peak search
  // ---------------------------------------------------------------------------------------------

  /**
   * The running maximum of the raw sample values, scanned left to right; a later sample replaces
   * the current maximum only when it is strictly greater. Raw values, not absolute values.
   */
  function Peak(s: seq<real>): (p: real)
    requires |s| > 0
    ensures p in s
    ensures forall i :: 0 <= i < |s| ==> s[i] <= p
  {
    if |s| == 1 then s[0]
    else
      var m := Peak(s[..|s| - 1]);
      assert forall i :: 0 <= i < |s| - 1 ==> s[i] == s[..|s| - 1][i];
      if s[|s| - 1] > m then s[|s| - 1] else m
  }

  /** `getMaxSignalAmplitude`: the buffer must be nonempty (element 0 is read unconditionally). */
  method GetMaxSignalAmplitude(signalBuffer: array<real>) returns (max: real)
    requires signalBuffer.Length > 0
    ensures max == Peak(signalBuffer[..])
    ensures max in signalBuffer[..]
    ensures forall i :: 0 <= i < signalBuffer.Length ==> signalBuffer[i] <= max
  {
    max := signalBuffer[0];
    var i := 1;
    while i < signalBuffer.Length
      invariant 1 <= i <= signalBuffer.Length
      invariant max == Peak(signalBuffer[..i])
    {
      assert signalBuffer[..i + 1][..i] == signalBuffer[..i];
      if signalBuffer[i] > max {
        max := signalBuffer[i];
      }
      i := i + 1;
    }
    assert signalBuffer[..i] == signalBuffer[..];
  }

  // ---------------------------------------------------------------------------------------------
  // PCM encoding
  // ---------------------------------------------------------------------------------------------

  /** The normalisation divisor of the encoder: `max(peak, 1)`, so it never amplifies. */
  function Divisor(peak: real): (d: real)
    ensures 1.0 <= d && peak <= d
    ensures d == peak || d == 1.0
  {
    if peak >= 1.0 then peak else 1.0
  }

  /** The 16-bit sample value of one real sample: `(int) (sample / divisor * Short.MAX_VALUE)`. */
  function Quantize(sample: real, divisor: real): int
    requires divisor >= 1.0
  {
    IntCast(sample / divisor * ShortMaxValue as real)
  }

  /** The high byte of a 16-bit sample: `(byte) (x >> 8)`. */
  function HighByte(x: int): byte
  {
    ToByte(ShiftRight8(x))
  }

  /** The low byte of a 16-bit sample: `(byte) x`. */
  function LowByte(x: int): byte
  {
    ToByte(x)
  }

  /** The two bytes one sample occupies, the high byte first when `bigEndian` holds. */
  function SampleBytes(x: int, bigEndian: bool): (pair: seq<byte>)
    ensures |pair| == 2
  {
    if bigEndian then [HighByte(x), LowByte(x)] else [LowByte(x), HighByte(x)]
  }

  /** The whole byte buffer for `s` against a given divisor: the samples' byte pairs in order. */
  function Pcm16With(s: seq<real>, divisor: real, bigEndian: bool): (bytes: seq<byte>)
    requires divisor >= 1.0
    ensures |bytes| == 2 * |s|
  {
    if |s| == 0 then []
    else Pcm16With(s[..|s| - 1], divisor, bigEndian) + SampleBytes(Quantize(s[|s| - 1], divisor), bigEndian)
  }

  /** The two bytes of sample `i` sit at `2i` and `2i+1`, their order fixed by `bigEndian`. */
  lemma {:induction false} PcmBytesOfSample(s: seq<real>, divisor: real, bigEndian: bool, i: nat)
    requires divisor >= 1.0 && i < |s|
    ensures Pcm16With(s, divisor, bigEndian)[2 * i + (if bigEndian then 0 else 1)] == HighByte(Quantize(s[i], divisor))
    ensures Pcm16With(s, divisor, bigEndian)[2 * i + (if bigEndian then 1 else 0)] == LowByte(Quantize(s[i], divisor))
  {
    var init := s[..|s| - 1];
    if i < |s| - 1 {
      PcmBytesOfSample(init, divisor, bigEndian, i);
      assert init[i] == s[i];
    }
  }

  /** What `convertToDigital` produces: divisor `max(Peak(s), 1)` over the raw peak. */
  function Pcm16(s: seq<real>, bigEndian: bool): (bytes: seq<byte>)
    requires |s| > 0
    ensures |bytes| == 2 * |s|
  {
    Pcm16With(s, Divisor(Peak(s)), bigEndian)
  }

  /** `convertToDigital`, with the byte order as a parameter (the program passes `IsBigEndian`). */
  method ConvertToDigital(signalBuffer: array<real>, bigEndian: bool) returns (byteBuffer: array<byte>)
    requires signalBuffer.Length > 0
    ensures fresh(byteBuffer)
    ensures byteBuffer[..] == Pcm16(signalBuffer[..], bigEndian)
  {
    byteBuffer := new byte[signalBuffer.Length * 2];
    var peak := GetMaxSignalAmplitude(signalBuffer);
    var max := Divisor(peak);
    WriteSamples(signalBuffer, max, bigEndian, byteBuffer);
  }

  /** The encoding loop of `convertToDigital`: writes both bytes of every sample, scaled by `max`. */
  method WriteSamples(signalBuffer: array<real>, max: real, bigEndian: bool, byteBuffer: array<byte>)
    requires max >= 1.0 && byteBuffer.Length == 2 * signalBuffer.Length
    modifies byteBuffer
    ensures byteBuffer[..] == Pcm16With(signalBuffer[..], max, bigEndian)
  {
    ghost var expected := Pcm16With(signalBuffer[..], max, bigEndian);
    var count := 0;
    var higherIndex := if bigEndian then 0 else 1;
    var lowerIndex := if bigEndian then 1 else 0;
    while lowerIndex < byteBuffer.Length
      invariant 0 <= count <= signalBuffer.Length
      invariant lowerIndex == 2 * count + (if bigEndian then 1 else 0)
      invariant higherIndex == 2 * count + (if bigEndian then 0 else 1)
      invariant forall k :: 0 <= k < 2 * count ==> byteBuffer[k] == expected[k]
      decreases byteBuffer.Length - lowerIndex
    {
      var x := Quantize(signalBuffer[count], max);
      PcmBytesOfSample(signalBuffer[..], max, bigEndian, count);
      count := count + 1;
      byteBuffer[lowerIndex] := LowByte(x);
      byteBuffer[higherIndex] := HighByte(x);
      lowerIndex := lowerIndex + 2;
      higherIndex := higherIndex + 2;
    }
    assert count == signalBuffer.Length;
    assert byteBuffer[..] == expected;
  }

  /** Reads two bytes back as a 16-bit two's-complement integer: a signed high byte, an unsigned low byte. */
  function Decode16(high: byte, low: byte): int
  {
    high as int * 256 + low as int % 256
  }

  /** Sample `i` read back from an encoded buffer in the given byte order. */
  function DecodedSample(bytes: seq<byte>, bigEndian: bool, i: nat): int
    requires 2 * i + 1 < |bytes|
  {
    if bigEndian then Decode16(bytes[2 * i], bytes[2 * i + 1])
    else Decode16(bytes[2 * i + 1], bytes[2 * i])
  }

  /** Two integers congruent modulo 2^16 that both lie in the 16-bit range are equal. */
  lemma {:induction false} Wrap16Unique(x: int, d: int)
    requires -0x8000 <= d < 0x8000
    requires (d - x) % 0x1_0000 == 0
    ensures Wrap16(x) == d
  {
    var w := Wrap16(x);
    var k := (d - x) / 0x1_0000;
    var j := (w - x) / 0x1_0000;
    assert d - x == 0x1_0000 * k;
    assert w - x == 0x1_0000 * j;
    assert w - d == 0x1_0000 * (j - k);
  }

  /** Writing the two bytes of `x` and reading them back gives the low 16 bits of `x`. */
  lemma {:induction false} ByteRoundTrip(x: int)
    ensures Decode16(HighByte(x), LowByte(x)) == Wrap16(x)
  {
    var h := ShiftRight8(x);
    var hb := HighByte(x) as int;
    var lb := LowByte(x) as int;
    var q := (hb - h) / 256;
    assert hb - h == 256 * q;
    var r := (lb - x) / 256;
    assert lb - x == 256 * r;
    assert lb % 256 == x % 256;
    assert x == h * 256 + x % 256;
    var d := Decode16(HighByte(x), LowByte(x));
    assert d == x + 0x1_0000 * q;
    Wrap16Unique(x, d);
  }

  /** Dividing a value in `[-d, d]` by `d >= 1` lands in `[-1, 1]`. */
  lemma {:induction false} UnitQuotient(sample: real, divisor: real)
    requires divisor >= 1.0
    requires -divisor <= sample <= divisor
    ensures -1.0 <= sample / divisor <= 1.0
  {
    var q := sample / divisor;
    assert q * divisor == sample;
  }

  /** A sample inside `[-divisor, divisor]` quantises into `[-32767, 32767]`, with no saturation. */
  lemma {:induction false} QuantizeInRange(sample: real, divisor: real)
    requires divisor >= 1.0
    requires -divisor <= sample <= divisor
    ensures -ShortMaxValue <= Quantize(sample, divisor) <= ShortMaxValue
    ensures Quantize(sample, divisor) == Trunc(sample / divisor * ShortMaxValue as real)
  {
    UnitQuotient(sample, divisor);
    var q := sample / divisor;
    assert -ShortMaxValue as real <= q * ShortMaxValue as real <= ShortMaxValue as real;
  }

  /**
   * Every sample of an encoded buffer reads back as the low 16 bits of its quantised value, and as
   * that value itself when the sample lies in `[-divisor, divisor]`.
   */
  lemma {:induction false} PcmRoundTrip(s: seq<real>, divisor: real, bigEndian: bool, i: nat)
    requires divisor >= 1.0 && i < |s|
    ensures DecodedSample(Pcm16With(s, divisor, bigEndian), bigEndian, i) == Wrap16(Quantize(s[i], divisor))
    ensures -divisor <= s[i] <= divisor ==>
      -ShortMaxValue <= DecodedSample(Pcm16With(s, divisor, bigEndian), bigEndian, i) <= ShortMaxValue &&
      DecodedSample(Pcm16With(s, divisor, bigEndian), bigEndian, i) == Quantize(s[i], divisor)
  {
    var bytes := Pcm16With(s, divisor, bigEndian);
    var x := Quantize(s[i], divisor);
    PcmBytesOfSample(s, divisor, bigEndian, i);
    ByteRoundTrip(x);
    if -divisor <= s[i] <= divisor {
      QuantizeInRange(s[i], divisor);
    }
  }

  /** An all-zero buffer encodes to all-zero bytes: the divisor defaults to 1 and nothing divides by zero. */
  lemma {:induction false} ZeroBufferEncodesToZeros(s: seq<real>, bigEndian: bool)
    requires |s| > 0
    requires forall i :: 0 <= i < |s| ==> s[i] == 0.0
    ensures forall k :: 0 <= k < |Pcm16(s, bigEndian)| ==> Pcm16(s, bigEndian)[k] == 0
  {
    assert Peak(s) == 0.0;
    assert Divisor(Peak(s)) == 1.0;
    forall k | 0 <= k < 2 * |s|
      ensures Pcm16With(s, 1.0, bigEndian)[k] == 0
    {
      var i := k / 2;
      PcmBytesOfSample(s, 1.0, bigEndian, i);
      assert Quantize(s[i], 1.0) == 0;
      assert k == 2 * i || k == 2 * i + 1;
    }
  }

  // ---------------------------------------------------------------------------------------------
  // Finding: the encoder normalises by the raw peak, not the absolute peak
  // ---------------------------------------------------------------------------------------------

  /**
   * As written, a buffer whose only sample is -2.0 has raw peak -2.0 and divisor 1; the sample scales
   * to -65534, whose low 16 bits are 2: a full-scale negative excursion is written as a quiet
   * positive sample.
   */
  lemma {:induction false} RawPeakWrapsNegativeSample()
    ensures Pcm16([-2.0], IsBigEndian) == [0, 2]
    ensures DecodedSample(Pcm16([-2.0], IsBigEndian), IsBigEndian, 0) == 2
  {
    var s := [-2.0];
    assert Peak(s) == -2.0;
    assert Divisor(Peak(s)) == 1.0;
    assert Quantize(-2.0, 1.0) == -65534;
    assert ShiftRight8(-65534) == -256;
    assert HighByte(-65534) == 0;
    assert LowByte(-65534) == 2;
    assert Pcm16With(s, 1.0, true) == Pcm16With([], 1.0, true) + SampleBytes(-65534, true);
  }

  /** The largest absolute sample value. */
  function AbsPeak(s: seq<real>): (p: real)
    requires |s| > 0
    ensures forall i :: 0 <= i < |s| ==> -p <= s[i] <= p
    ensures exists i :: 0 <= i < |s| && (s[i] == p || s[i] == -p)
  {
    var a := if s[|s| - 1] >= 0.0 then s[|s| - 1] else -s[|s| - 1];
    if |s| == 1 then a
    else
      var m := AbsPeak(s[..|s| - 1]);
      assert forall i :: 0 <= i < |s| - 1 ==> s[i] == s[..|s| - 1][i];
      if a > m then a else m
  }

  /** The evidently intended encoder: normalise by `max(AbsPeak(s), 1)`. */
  function Pcm16Normalized(s: seq<real>, bigEndian: bool): (bytes: seq<byte>)
    requires |s| > 0
    ensures |bytes| == 2 * |s|
  {
    Pcm16With(s, Divisor(AbsPeak(s)), bigEndian)
  }

  /**
   * With the absolute peak every sample reads back as its quantised value, inside `[-32767, 32767]`
   * and within one quantisation step of the exact scaled value `s[i] / divisor * 32767`.
   */
  lemma {:induction false} NormalizedRoundTrip(s: seq<real>, bigEndian: bool, i: nat)
    requires |s| > 0 && i < |s|
    ensures DecodedSample(Pcm16Normalized(s, bigEndian), bigEndian, i) == Quantize(s[i], Divisor(AbsPeak(s)))
    ensures -ShortMaxValue <= DecodedSample(Pcm16Normalized(s, bigEndian), bigEndian, i) <= ShortMaxValue
    ensures var exact := s[i] / Divisor(AbsPeak(s)) * ShortMaxValue as real;
            exact - 1.0 < DecodedSample(Pcm16Normalized(s, bigEndian), bigEndian, i) as real < exact + 1.0
  {
    var d := Divisor(AbsPeak(s));
    PcmRoundTrip(s, d, bigEndian, i);
    QuantizeInRange(s[i], d);
    var exact := s[i] / d * ShortMaxValue as real;
    var t := Trunc(exact);
    assert t as real - 1.0 < exact < t as real + 1.0;
  }

  // ---------------------------------------------------------------------------------------------
  // Mixing
  // ---------------------------------------------------------------------------------------------

  /** Sample `i` of `s`, or 0 past its end: a signal shorter than the first adds nothing there. */
  function SampleOrZero(s: seq<real>, i: nat): real
  {
    if i < |s| then s[i] else 0.0
  }

  /** The sum of sample `i` over the signals, accumulated first signal first. */
  function ColumnSum(signals: seq<seq<real>>, i: nat): real
  {
    if signals == [] then 0.0
    else ColumnSum(signals[..|signals| - 1], i) + SampleOrZero(signals[|signals| - 1], i)
  }

  /** What `mixComplexSignal` computes: the column sums, as long as the first signal. */
  function Mix(signals: seq<seq<real>>): (r: seq<real>)
    requires |signals| > 0
    ensures |r| == |signals[0]|
  {
    seq(|signals[0]|, i requires 0 <= i < |signals[0]| => ColumnSum(signals, i))
  }

  /** The contents of a list of arrays. */
  function Contents(arrays: seq<array<real>>): (ss: seq<seq<real>>)
    reads set j | 0 <= j < |arrays| :: arrays[j]
    ensures |ss| == |arrays|
    ensures forall j :: 0 <= j < |arrays| ==> ss[j] == arrays[j][..]
  {
    if arrays == [] then []
    else Contents(arrays[..|arrays| - 1]) + [arrays[|arrays| - 1][..]]
  }

  /**
   * `mixComplexSignal`: the list must be nonempty (its first element fixes the length) and no later
   * signal may be longer than the first (it would be indexed out of bounds). The inputs are only read.
   */
  method MixComplexSignal(waveSignals: seq<array<real>>) returns (resultSignal: array<real>)
    requires |waveSignals| > 0
    requires forall j :: 0 <= j < |waveSignals| ==> waveSignals[j].Length <= waveSignals[0].Length
    ensures fresh(resultSignal)
    ensures resultSignal[..] == Mix(Contents(waveSignals))
  {
    ghost var ss := Contents(waveSignals);
    var n := waveSignals[0].Length;
    resultSignal := new real[n](_ => 0.0);
    var j := 0;
    while j < |waveSignals|
      invariant 0 <= j <= |waveSignals|
      invariant forall k :: 0 <= k < n ==> resultSignal[k] == ColumnSum(ss[..j], k)
    {
      var signal := waveSignals[j];
      ghost var before := resultSignal[..];
      var i := 0;
      while i < signal.Length
        invariant 0 <= i <= signal.Length
        invariant forall k :: 0 <= k < n ==> resultSignal[k] == before[k] + SampleOrZero(signal[..i], k)
      {
        resultSignal[i] := resultSignal[i] + signal[i];
        i := i + 1;
      }
      forall k | 0 <= k < n
        ensures resultSignal[k] == ColumnSum(ss[..j + 1], k)
      {
        ColumnSumSnoc(ss, j, k);
        assert signal[..i] == ss[j];
      }
      j := j + 1;
    }
    assert ss[..j] == ss;
  }

  /** Extending the list by its next signal adds that signal's sample (or 0 past its end). */
  lemma {:induction false} ColumnSumSnoc(ss: seq<seq<real>>, j: nat, k: nat)
    requires j < |ss|
    ensures ColumnSum(ss[..j + 1], k) == ColumnSum(ss[..j], k) + SampleOrZero(ss[j], k)
  {
    assert ss[..j + 1][..j] == ss[..j];
  }

  /** Column sums distribute over concatenation of the signal list. */
  lemma {:induction false} ColumnSumAppend(a: seq<seq<real>>, b: seq<seq<real>>, i: nat)
    ensures ColumnSum(a + b, i) == ColumnSum(a, i) + ColumnSum(b, i)
    decreases |b|
  {
    if b == [] {
      assert a + b == a;
    } else {
      assert (a + b)[..|a + b| - 1] == a + b[..|b| - 1];
      ColumnSumAppend(a, b[..|b| - 1], i);
    }
  }

  /** The sum of sample `i` over the list, first signal plus the sum of the rest. */
  function SumAt(signals: seq<seq<real>>, i: nat): real
    requires forall j :: 0 <= j < |signals| ==> i < |signals[j]|
  {
    if signals == [] then 0.0 else signals[0][i] + SumAt(signals[1..], i)
  }

  /** When every signal reaches index `i`, mixing there is the plain sum over the list. */
  lemma {:induction false} ColumnSumIsSum(signals: seq<seq<real>>, i: nat)
    requires forall j :: 0 <= j < |signals| ==> i < |signals[j]|
    ensures ColumnSum(signals, i) == SumAt(signals, i)
    decreases |signals|
  {
    if signals != [] {
      assert signals == [signals[0]] + signals[1..];
      ColumnSumAppend([signals[0]], signals[1..], i);
      ColumnSumIsSum(signals[1..], i);
      assert ColumnSum([signals[0]], i) == ColumnSum([], i) + signals[0][i];
    }
  }

  /** Mixing equal-length signals gives, at every index, the sum over the list. */
  lemma {:induction false} MixIsElementwiseSum(signals: seq<seq<real>>, i: nat)
    requires |signals| > 0
    requires forall j :: 0 <= j < |signals| ==> |signals[j]| == |signals[0]|
    requires i < |signals[0]|
    ensures Mix(signals)[i] == SumAt(signals, i)
  {
    ColumnSumIsSum(signals, i);
  }

  /** Mixing a one-signal list returns that signal. */
  lemma {:induction false} MixSingle(s: seq<real>)
    ensures Mix([s]) == s
  {
    forall i | 0 <= i < |s|
      ensures Mix([s])[i] == s[i]
    {
      MixIsElementwiseSum([s], i);
      assert [s][1..] == [];
      assert SumAt([s], i) == s[i] + SumAt([], i);
    }
  }

  /** Mixing two equal-length signals adds them sample by sample. */
  lemma {:induction false} MixPair(a: seq<real>, b: seq<real>)
    requires |a| == |b|
    ensures |Mix([a, b])| == |a|
    ensures forall i :: 0 <= i < |a| ==> Mix([a, b])[i] == a[i] + b[i]
  {
    forall i | 0 <= i < |a|
      ensures Mix([a, b])[i] == a[i] + b[i]
    {
      MixIsElementwiseSum([a, b], i);
      assert [a, b][1..] == [b];
      assert [b][1..] == [];
      assert SumAt([b], i) == b[i] + SumAt([], i);
      assert SumAt([a, b], i) == a[i] + SumAt([b], i);
    }
  }

  // ---------------------------------------------------------------------------------------------
  // Generation
  // ---------------------------------------------------------------------------------------------

  /** `((int) (ms * SAMPLING_RATE)) / 1000`: the number of samples in `ms` milliseconds. */
  function BufferLength(ms: nat): (len: int)
    ensures 0 <= len
    ensures ms * SamplingRate <= IntMax ==> len * 1000 <= ms * SamplingRate < (len + 1) * 1000
  {
    IntCast((ms * SamplingRate) as real) / 1000
  }

  /** One second of audio is 44100 samples. */
  lemma {:induction false} OneSecondBuffer()
    ensures BufferLength(1000) == 44100
  {
  }

  /**
   * `generateSignal`: a negative duration would be a negative array size, so `ms` is a `nat`. Each
   * index of the new buffer is written once with the waveform formula at that index.
   */
  method GenerateSignal(waveFunction: WaveFunction, ms: nat, frequency: real, amplitude: real, phase: real)
    returns (buffer: array<real>)
    ensures fresh(buffer)
    ensures buffer.Length == BufferLength(ms)
    ensures forall n :: 0 <= n < buffer.Length ==> buffer[n] == waveFunction(amplitude, frequency, phase, n)
  {
    buffer := new real[BufferLength(ms)];
    var sample := 0;
    while sample < buffer.Length
      invariant 0 <= sample <= buffer.Length
      invariant forall n :: 0 <= n < sample ==> buffer[n] == waveFunction(amplitude, frequency, phase, n)
    {
      buffer[sample] := waveFunction(amplitude, frequency, phase, sample);
      sample := sample + 1;
    }
  }

  // ---------------------------------------------------------------------------------------------
  // Amplitude modulation
  // ---------------------------------------------------------------------------------------------

  /** The AM gain of one modulator sample: `1 + m * sample / peak`. */
  function Gain(m: real, sample: real, peak: real): real
    requires peak != 0.0
  {
    1.0 + m * sample / peak
  }

  /** Output sample `i` of AM: the unit-amplitude, zero-phase carrier at `i` times the gain of `sample`. */
  function AmSample(carrierWave: WaveFunction, carrierFrequency: real, m: real, sample: real, peak: real, i: int): real
    requires peak != 0.0
  {
    carrierWave(MaxAmplitude, carrierFrequency, 0.0, i) * Gain(m, sample, peak)
  }

  /**
   * What `modulateByAmplitude` computes: the unit-amplitude, zero-phase carrier at index `i` times the
   * gain of `modulator[i]` against the raw peak of the modulator.
   */
  function AmplitudeModulated(carrierWave: WaveFunction, carrierFrequency: real, m: real, modulator: seq<real>)
    : (r: seq<real>)
    requires |modulator| > 0 && Peak(modulator) != 0.0
    ensures |r| == |modulator|
  {
    seq(|modulator|, i requires 0 <= i < |modulator| =>
      AmSample(carrierWave, carrierFrequency, m, modulator[i], Peak(modulator), i))
  }

  /**
   * `modulateByAmplitude`: the modulator must be nonempty (the peak search reads element 0) and its
   * raw peak nonzero (the code divides by it without a guard).
   */
  method ModulateByAmplitude(carrierWave: WaveFunction, carrierFrequency: real, m: real, modulator: array<real>)
    returns (result: array<real>)
    requires modulator.Length > 0
    requires Peak(modulator[..]) != 0.0
    ensures fresh(result)
    ensures result[..] == AmplitudeModulated(carrierWave, carrierFrequency, m, modulator[..])
  {
    result := new real[modulator.Length];
    var maxM := GetMaxSignalAmplitude(modulator);
    for i := 0 to modulator.Length
      invariant forall k :: 0 <= k < i ==>
        result[k] == AmSample(carrierWave, carrierFrequency, m, modulator[k], maxM, k)
    {
      result[i] := AmSample(carrierWave, carrierFrequency, m, modulator[i], maxM, i);
    }
  }

  /** With modulation index 0 the output is the carrier itself. */
  lemma {:induction false} AmplitudeModulatedZeroIndex(carrierWave: WaveFunction, carrierFrequency: real, modulator: seq<real>)
    requires |modulator| > 0 && Peak(modulator) != 0.0
    ensures AmplitudeModulated(carrierWave, carrierFrequency, 0.0, modulator) ==
            seq(|modulator|, i => carrierWave(MaxAmplitude, carrierFrequency, 0.0, i))
  {
    forall i | 0 <= i < |modulator|
      ensures AmSample(carrierWave, carrierFrequency, 0.0, modulator[i], Peak(modulator), i)
              == carrierWave(MaxAmplitude, carrierFrequency, 0.0, i)
    {
      assert Gain(0.0, modulator[i], Peak(modulator)) == 1.0;
    }
  }

  /**
   * For a positive peak and a nonnegative index, the gain never exceeds `1 + m`, and reaches it at
   * the peak sample. It has no lower bound: samples far below the raw peak give large negative gains
   * (a lower bound of `1 - m` would need the absolute peak).
   */
  lemma {:induction false} GainBounded(modulator: seq<real>, m: real, i: nat)
    requires |modulator| > 0 && Peak(modulator) > 0.0 && 0.0 <= m && i < |modulator|
    ensures Gain(m, modulator[i], Peak(modulator)) <= 1.0 + m
    ensures modulator[i] == Peak(modulator) ==> Gain(m, modulator[i], Peak(modulator)) == 1.0 + m
  {
    GainAtMost(m, modulator[i], Peak(modulator));
  }

  /** The gain of a sample at most the peak is at most `1 + m`, and exactly that at the peak. */
  lemma {:induction false} GainAtMost(m: real, sample: real, peak: real)
    requires 0.0 < peak && sample <= peak && 0.0 <= m
    ensures Gain(m, sample, peak) <= 1.0 + m
    ensures sample == peak ==> Gain(m, sample, peak) == 1.0 + m
  {
    ScaledAtMost(m, sample, peak);
    assert Gain(m, sample, peak) == 1.0 + m * sample / peak;
  }

  /** Real-arithmetic step of `GainAtMost`. */
  lemma {:induction false} ScaledAtMost(m: real, sample: real, peak: real)
    requires 0.0 < peak && sample <= peak && 0.0 <= m
    ensures m * sample / peak <= m
    ensures sample == peak ==> m * sample / peak == m
  {
    var q := sample / peak;
    assert q * peak == sample;
    assert (1.0 - q) * peak == peak - sample;
    assert q <= 1.0;
    assert m * (1.0 - q) >= 0.0;
    assert m * sample / peak == m * q;
  }

  // ---------------------------------------------------------------------------------------------
  // Frequency modulation
  // ---------------------------------------------------------------------------------------------

  /** The phase advance for one modulator sample: `2 * PI * fc * (1 + sample) / SAMPLING_RATE`. */
  function PhaseStep(carrierFrequency: real, sample: real): real
  {
    2.0 * Pi * carrierFrequency * (1.0 + sample) / SamplingRate as real
  }

  /** The phase accumulator after consuming `samples`: the sum of their phase steps. */
  function Phase(carrierFrequency: real, samples: seq<real>): real
  {
    if samples == [] then 0.0
    else Phase(carrierFrequency, samples[..|samples| - 1]) + PhaseStep(carrierFrequency, samples[|samples| - 1])
  }

  /** What `modulateByFrequency` computes: sample `i` is `g(m, f)` with `f` the phase after samples `0..i`. */
  function FrequencyModulated(freqModulateFunction: (real, real) -> real, carrierFrequency: real, m: real,
                              modulator: seq<real>): (r: seq<real>)
    ensures |r| == |modulator|
  {
    seq(|modulator|, i requires 0 <= i < |modulator| =>
      freqModulateFunction(m, Phase(carrierFrequency, modulator[..i + 1])))
  }

  /** `modulateByFrequency`, with the per-kind function `freqModulateFunction` as a parameter. */
  method ModulateByFrequency(freqModulateFunction: (real, real) -> real, carrierFrequency: real, m: real,
                             modulator: array<real>) returns (result: array<real>)
    ensures fresh(result)
    ensures result[..] == FrequencyModulated(freqModulateFunction, carrierFrequency, m, modulator[..])
  {
    result := new real[modulator.Length];
    var f := 0.0;
    for i := 0 to modulator.Length
      invariant f == Phase(carrierFrequency, modulator[..i])
      invariant forall k :: 0 <= k < i ==>
        result[k] == freqModulateFunction(m, Phase(carrierFrequency, modulator[..k + 1]))
    {
      assert modulator[..i + 1][..i] == modulator[..i];
      f := f + PhaseStep(carrierFrequency, modulator[i]);
      result[i] := freqModulateFunction(m, f);
    }
  }

  /** The accumulator is additive: the phase over `a + b` is the phase over `a` plus that over `b`. */
  lemma {:induction false} PhaseAppend(carrierFrequency: real, a: seq<real>, b: seq<real>)
    ensures Phase(carrierFrequency, a + b) == Phase(carrierFrequency, a) + Phase(carrierFrequency, b)
    decreases |b|
  {
    if b == [] {
      assert a + b == a;
    } else {
      assert (a + b)[..|a + b| - 1] == a + b[..|b| - 1];
      PhaseAppend(carrierFrequency, a, b[..|b| - 1]);
    }
  }

  /** With a silent modulator the phase advances uniformly: `n` samples give `n * 2 * PI * fc / 44100`. */
  lemma {:induction false} PhaseUnmodulated(carrierFrequency: real, samples: seq<real>)
    requires forall i :: 0 <= i < |samples| ==> samples[i] == 0.0
    ensures Phase(carrierFrequency, samples) == |samples| as real * (2.0 * Pi * carrierFrequency / SamplingRate as real)
  {
    if samples != [] {
      PhaseUnmodulated(carrierFrequency, samples[..|samples| - 1]);
    }
  }

  /**
   * For a positive carrier frequency and modulator samples above -1 the instantaneous frequency is
   * positive: the phase strictly increases from one prefix to a longer one.
   */
  lemma {:induction false} PhaseIncreasing(carrierFrequency: real, samples: seq<real>, i: nat, j: nat)
    requires 0.0 < carrierFrequency
    requires forall k :: 0 <= k < |samples| ==> -1.0 < samples[k]
    requires i < j <= |samples|
    ensures Phase(carrierFrequency, samples[..i]) < Phase(carrierFrequency, samples[..j])
  {
    assert samples[..j] == samples[..i] + samples[i..j];
    PhaseAppend(carrierFrequency, samples[..i], samples[i..j]);
    PhasePositive(carrierFrequency, samples[i..j]);
  }

  /** Helper for `PhaseIncreasing`: a nonempty run of samples above -1 advances the phase. */
  lemma {:induction false} PhasePositive(carrierFrequency: real, samples: seq<real>)
    requires 0.0 < carrierFrequency
    requires forall k :: 0 <= k < |samples| ==> -1.0 < samples[k]
    requires samples != []
    ensures 0.0 < Phase(carrierFrequency, samples)
  {
    var last := samples[|samples| - 1];
    assert 0.0 < 1.0 + last;
    assert 0.0 < 2.0 * Pi * carrierFrequency;
    assert 0.0 < 2.0 * Pi * carrierFrequency * (1.0 + last);
    if |samples| > 1 {
      PhasePositive(carrierFrequency, samples[..|samples| - 1]);
    }
  }
}
