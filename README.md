# Signal pipeline of a console synthesizer, in Dafny

This project models the signal core of a small Java synthesizer. The user gives a duration and a
binary mask. The mask selects waveform kinds (SINE, SQUARE, TRIANGLE, SAWTOOTH, NOISE). For each
selected kind the program reads an amplitude, and before it a frequency and a phase unless the kind
is NOISE. It then does the following:

- generates one buffer of samples per selected kind;
- mixes the buffers into a polyharmonic signal;
- modulates a carrier by amplitude (AM) and by frequency (FM);
- encodes every buffer as 16-bit signed big-endian PCM before writing it to a WAV file.

The model keeps the code's shape. Every `DSPService` operation except the peak search allocates an
array and fills it in a loop, and so does each Dafny method. Each method is proved against a specification function on
sequences. The properties of the pipeline are lemmas about those functions. The mask and amplitude
rules of `main` are methods over the sequence of input tokens. The selection loop is proved against
a recursive function of the mask.

Modules:

- WaveForms: the declaration order of the waveform kinds.
- JavaNumerics: the Java conversions the encoder relies on, written out over unbounded integers:
  - the float-to-int cast (rounding toward zero, then saturation, as in section 5.1.3 of the Java
    Language Specification);
  - the `(byte)` cast;
  - `>> 8`;
  - reading 16 bits as two's complement.
- AudioFormatConstants: 44100 Hz, 16 bits, mono, signed, big-endian.
- DSPService: the peak search, the PCM encoder, the mixer, the generator, AM and FM.
- MainProgram:
  - which token is taken as the mask;
  - how the mask selects kinds;
  - what is read for each selected kind and which amplitudes are accepted;
  - generation and mixing of the selected signals.

Three behaviours of the code are easy to misread, and the model follows the code in each:

- Peaks are raw maxima, not maxima of absolute values. The comment at DSPService.java:102-103 says
  the encoder collapses the signal to [-1..1]. But `getMaxSignalAmplitude` (DSPService.java:124-132)
  compares raw values, so negative excursions below -1 are never attenuated. The consequence is
  logged under Findings. AM uses the same raw peak (DSPService.java:33).
- AM divides by the peak with no guard against zero (DSPService.java:33-35). The model requires a
  nonzero peak; it has no error result.
- The comment at DSPService.java:61 says all the signals have the same length. The code does not
  check this: it sizes the result by the first signal (:62), and each signal is indexed up to its
  own length (:64). A shorter later signal contributes nothing past its end, and only a longer one
  fails. The model's precondition on `MixComplexSignal` is exactly that.

## Model

| member | source | states |
|---|---|---|
| WaveForms.Ordinal | src/main/java/by/petrovlad/dsp/enums/WaveForm.java:7-67 | every kind has a position below 5 in the declaration order |
| WaveForms.KindAt | src/main/java/by/petrovlad/dsp/Main.java:43 | `values()[i]` is the kind whose ordinal is `i` |
| WaveForms.KindAtOrdinal | src/main/java/by/petrovlad/dsp/enums/WaveForm.java:7-67 | `values()[w.ordinal()] == w`: the order lists every kind exactly once |
| JavaNumerics.Trunc | src/main/java/by/petrovlad/dsp/service/DSPService.java:111 | rounding toward zero: keeps the sign, and is within one of the argument and no farther from zero than it |
| JavaNumerics.IntCast | src/main/java/by/petrovlad/dsp/service/DSPService.java:111 | `(int)` of a finite value: the truncation when it fits in `int`, otherwise `Integer.MIN_VALUE` or `Integer.MAX_VALUE` |
| JavaNumerics.ToByte | src/main/java/by/petrovlad/dsp/service/DSPService.java:113-115 | `(byte) x` is congruent to `x` modulo 256, and equals `x` when `x` fits in a byte |
| JavaNumerics.ShiftRight8 | src/main/java/by/petrovlad/dsp/service/DSPService.java:115 | `x >> 8` is the floor of `x / 256` |
| JavaNumerics.Wrap16 | src/main/java/by/petrovlad/dsp/service/DSPService.java:111-115 | the 16-bit two's-complement reading of `x`: in `[-32768, 32768)`, congruent to `x` modulo 65536, and `x` itself when it fits |
| DSPService.Peak | src/main/java/by/petrovlad/dsp/service/DSPService.java:124-132 | the raw peak of a nonempty buffer occurs in it and is at least every sample |
| DSPService.GetMaxSignalAmplitude | src/main/java/by/petrovlad/dsp/service/DSPService.java:124-132 | the running-maximum loop returns `Peak` of the buffer: a value of the buffer, at least every sample, compared raw |
| DSPService.Divisor | src/main/java/by/petrovlad/dsp/service/DSPService.java:104 | `max(peak, 1)` is at least 1, so there is no division by zero, and at least the peak; it is the peak or 1 |
| DSPService.SampleBytes | src/main/java/by/petrovlad/dsp/service/DSPService.java:111-115 | each sample takes exactly two bytes |
| DSPService.Pcm16With | src/main/java/by/petrovlad/dsp/service/DSPService.java:100-119 | the encoding has exactly two bytes per sample |
| DSPService.PcmBytesOfSample | src/main/java/by/petrovlad/dsp/service/DSPService.java:106-119 | for big-endian, byte `2i` is `(byte)(x >> 8)` and byte `2i+1` is `(byte) x`, with `x` the scaled sample `i`; for little-endian the two positions swap |
| DSPService.Pcm16 | src/main/java/by/petrovlad/dsp/service/DSPService.java:97-122 | the encoding of a nonempty buffer has `2 * length` bytes |
| DSPService.ConvertToDigital | src/main/java/by/petrovlad/dsp/service/DSPService.java:97-122 | returns a new array equal to `Pcm16` of the buffer: divisor `max(peak, 1)`, two bytes per sample at the positions set by the byte order |
| DSPService.WriteSamples | src/main/java/by/petrovlad/dsp/service/DSPService.java:106-119 | the two-index stepping loop writes every byte of `Pcm16With`; it ends once every sample is consumed |
| DSPService.ByteRoundTrip | src/main/java/by/petrovlad/dsp/service/DSPService.java:111-115 | a signed high byte and an unsigned low byte read back give the low 16 bits of `x` as two's complement |
| DSPService.QuantizeInRange | src/main/java/by/petrovlad/dsp/service/DSPService.java:111 | a sample in `[-divisor, divisor]` scales to `[-32767, 32767]`, where the cast is plain truncation |
| DSPService.PcmRoundTrip | src/main/java/by/petrovlad/dsp/service/DSPService.java:104-115 | every encoded sample decodes to its scaled value modulo 2^16; it decodes to exactly that value, within ±32767, when the sample lies in `[-divisor, divisor]` |
| DSPService.ZeroBufferEncodesToZeros | src/main/java/by/petrovlad/dsp/service/DSPService.java:104-115 | an all-zero buffer encodes to all-zero bytes: the divisor falls back to 1 |
| DSPService.RawPeakWrapsNegativeSample | src/main/java/by/petrovlad/dsp/service/DSPService.java:104 | as written, the one-sample buffer `[-2.0]` encodes to bytes `[0, 2]`, which read back as `+2` |
| DSPService.AbsPeak | src/main/java/by/petrovlad/dsp/service/DSPService.java:102-104 | the absolute peak: every sample lies in `[-p, p]`, and some sample is `p` or `-p` |
| DSPService.Pcm16Normalized | src/main/java/by/petrovlad/dsp/service/DSPService.java:97-122 | the corrected encoding has two bytes per sample |
| DSPService.NormalizedRoundTrip | src/main/java/by/petrovlad/dsp/service/DSPService.java:102-115 | with the absolute peak, every sample reads back as its scaled value, within ±32767 and within one step of `s[i] / divisor * 32767` |
| DSPService.Mix | src/main/java/by/petrovlad/dsp/service/DSPService.java:60-69 | the mix is as long as the first signal |
| DSPService.Contents | src/main/java/by/petrovlad/dsp/service/DSPService.java:63 | the list of arrays read as a list of sequences, element by element |
| DSPService.MixComplexSignal | src/main/java/by/petrovlad/dsp/service/DSPService.java:60-69 | needs a nonempty list with no signal longer than the first; returns a new array equal to `Mix` of the inputs, which it only reads |
| DSPService.ColumnSumSnoc | src/main/java/by/petrovlad/dsp/service/DSPService.java:63-66 | adding the next signal to the accumulator adds its sample, or 0 past its end |
| DSPService.ColumnSumAppend | src/main/java/by/petrovlad/dsp/service/DSPService.java:63-67 | the mix of a concatenated list is the sum of the mixes of the parts |
| DSPService.ColumnSumIsSum | src/main/java/by/petrovlad/dsp/service/DSPService.java:63-67 | where every signal reaches index `i`, the accumulated value equals the sum over the list, as a reference definition gives it |
| DSPService.MixIsElementwiseSum | src/main/java/by/petrovlad/dsp/service/DSPService.java:60-69 | for equal-length signals, `result[i]` is the sum over the list of `signal[i]` |
| DSPService.MixSingle | src/main/java/by/petrovlad/dsp/service/DSPService.java:60-69 | mixing a one-element list returns that signal |
| DSPService.MixPair | src/main/java/by/petrovlad/dsp/service/DSPService.java:60-69 | mixing two equal-length signals adds them sample by sample |
| DSPService.BufferLength | src/main/java/by/petrovlad/dsp/service/DSPService.java:72 | the buffer length is nonnegative; while `ms * 44100` fits in `int`, it is `ms * 44100 / 1000` rounded down |
| DSPService.OneSecondBuffer | src/main/java/by/petrovlad/dsp/service/DSPService.java:72 | 1000 ms is 44100 samples |
| DSPService.GenerateSignal | src/main/java/by/petrovlad/dsp/service/DSPService.java:71-79 | a new buffer of length `BufferLength(ms)`; every index `n` holds the waveform formula at `(amplitude, frequency, phase, n)` |
| DSPService.AmplitudeModulated | src/main/java/by/petrovlad/dsp/service/DSPService.java:30-38 | the AM output has the modulator's length |
| DSPService.ModulateByAmplitude | src/main/java/by/petrovlad/dsp/service/DSPService.java:30-38 | a new array whose sample `i` is the unit-amplitude, zero-phase carrier at `i` times `1 + m * mod[i] / maxM`, with `maxM` the raw peak |
| DSPService.AmplitudeModulatedZeroIndex | src/main/java/by/petrovlad/dsp/service/DSPService.java:31-35 | with `m = 0` every output sample is the carrier sample at that index |
| DSPService.GainBounded | src/main/java/by/petrovlad/dsp/service/DSPService.java:33-35 | for a positive peak and `m >= 0`, the gain is at most `1 + m`, and exactly that at the peak sample |
| DSPService.GainAtMost | src/main/java/by/petrovlad/dsp/service/DSPService.java:35 | a sample at most the peak has gain at most `1 + m`; at the peak the gain is exactly `1 + m` |
| DSPService.FrequencyModulated | src/main/java/by/petrovlad/dsp/service/DSPService.java:47-57 | the FM output has the modulator's length |
| DSPService.ModulateByFrequency | src/main/java/by/petrovlad/dsp/service/DSPService.java:47-57 | a new array whose sample `i` is `g(m, f_i)`, with `f_i` the sum over `k <= i` of `2π·fc·(1 + mod[k]) / 44100` |
| DSPService.PhaseAppend | src/main/java/by/petrovlad/dsp/service/DSPService.java:50-53 | the phase accumulator is additive over concatenated modulators |
| DSPService.PhaseUnmodulated | src/main/java/by/petrovlad/dsp/service/DSPService.java:52 | a silent modulator advances the phase by `2π·fc / 44100` per sample |
| DSPService.PhaseIncreasing | src/main/java/by/petrovlad/dsp/service/DSPService.java:51-53 | for `fc > 0` and modulator samples above -1, the phase strictly increases along the buffer |
| DSPService.PhasePositive | src/main/java/by/petrovlad/dsp/service/DSPService.java:52 | a nonempty run of samples above -1 advances the phase by a positive amount |
| MainProgram.ReadMask | src/main/java/by/petrovlad/dsp/Main.java:32-37 | skips tokens until one matches `[01]{1,5}`; returns the first match, or none when none matches |
| MainProgram.BinaryValue | src/main/java/by/petrovlad/dsp/Main.java:38 | the base-2 value of the mask is below `2^length` |
| MainProgram.BitOfBinaryValue | src/main/java/by/petrovlad/dsp/Main.java:38-42 | bit `i` of the parsed mask is set iff the digit `i` places from the right is `1` |
| MainProgram.ShiftRightZero | src/main/java/by/petrovlad/dsp/Main.java:42 | `0 >> i` is 0 |
| MainProgram.ShiftRightStep | src/main/java/by/petrovlad/dsp/Main.java:42 | shifting one place further halves the value |
| MainProgram.SelectedKindsMembership | src/main/java/by/petrovlad/dsp/Main.java:41-43 | a kind is selected iff its bit is set |
| MainProgram.SelectedKindsIncreasing | src/main/java/by/petrovlad/dsp/Main.java:41-43 | selected kinds come in strictly increasing ordinal |
| MainProgram.LowBitCountOfBinaryValue | src/main/java/by/petrovlad/dsp/Main.java:38-42 | the set bits of the parsed mask are its `1` digits |
| MainProgram.SelectedKindsCount | src/main/java/by/petrovlad/dsp/Main.java:41-42 | the number of selected kinds is the number of set bits among bits 0 to 4 |
| MainProgram.MaskSelects | src/main/java/by/petrovlad/dsp/Main.java:32-43 | for an accepted mask, kind `w` is selected iff the digit `ordinal(w)` places from the right is `1`, so the last digit selects SINE |
| MainProgram.MaskCount | src/main/java/by/petrovlad/dsp/Main.java:32-43 | for an accepted mask, as many kinds are selected as the mask has `1` digits |
| MainProgram.NextAmplitude | src/main/java/by/petrovlad/dsp/Main.java:57-62 | the first value in `[-1, 1]` from the current position, with every value before it rejected, or none when all remaining values are rejected |
| MainProgram.ReadAmplitude | src/main/java/by/petrovlad/dsp/Main.java:56-62 | the re-prompting loop accepts exactly `NextAmplitude` |
| MainProgram.ReadWaveSpec | src/main/java/by/petrovlad/dsp/Main.java:45-62 | what one selected kind reads: frequency and phase, except for NOISE, which keeps 0 and 0; then an accepted amplitude |
| MainProgram.ReadWaveSpecs | src/main/java/by/petrovlad/dsp/Main.java:40-66 | the loop over bits 0 to 4 reads exactly what `ReadSpecs` specifies |
| MainProgram.ReadSpecsSkip | src/main/java/by/petrovlad/dsp/Main.java:42 | an unselected kind reads nothing |
| MainProgram.ReadSpecsTake | src/main/java/by/petrovlad/dsp/Main.java:42-64 | a selected kind appends its spec and the rest read on from there; if its read fails, everything fails |
| MainProgram.ReadOneWellFormed | src/main/java/by/petrovlad/dsp/Main.java:45-62 | a spec read for a kind has that kind and an accepted amplitude; for NOISE, frequency and phase are 0; the read consumes input |
| MainProgram.ReadSpecsShape | src/main/java/by/petrovlad/dsp/Main.java:40-66 | a successful read gives one spec per selected kind, in increasing kind order, each well formed |
| MainProgram.SpecInputs | src/main/java/by/petrovlad/dsp/Main.java:45-62 | a user types one value for a NOISE spec and three for any other kind |
| MainProgram.ReadOneInputs | src/main/java/by/petrovlad/dsp/Main.java:45-62 | typing a well-formed spec's values reads back exactly that spec and stops right after them |
| MainProgram.ReadSpecsRoundTrip | src/main/java/by/petrovlad/dsp/Main.java:40-66 | for well-formed specs of exactly the selected kinds, typing their values reads them back unchanged: reading inverts typing |
| MainProgram.ReadSpecsSucceeds | src/main/java/by/petrovlad/dsp/Main.java:40-66 | with only acceptable values and three per selected kind, the read succeeds |
| MainProgram.ReadOneSucceeds | src/main/java/by/petrovlad/dsp/Main.java:45-62 | with three acceptable values available, one kind's read succeeds and consumes at most three |
| MainProgram.GenerateAndMix | src/main/java/by/petrovlad/dsp/Main.java:64-69 | one buffer of `BufferLength(ms)` samples per spec, mixed: sample `n` is the sum over the specs of their formulas at `n` |
| MainProgram.SumAtSpecs | src/main/java/by/petrovlad/dsp/Main.java:64-69 | summing the generated buffers at `n` equals summing the specs' samples at `n` |

## Left out

- Float rounding. Samples, gains and phases are reals, and `Math.PI` is 3.141592653589793, the shortest decimal of the double value of its declared 3.14159265358979323846. The float-to-int cast is modelled exactly: truncation, then saturation. NaN and infinities do not exist in the model.
- DSPService.BufferLength: the code multiplies `ms * 44100` in `float`. The model multiplies exactly, which is guaranteed to agree with the code while `ms * 44100` is below 2^24.
- The waveform formulas (`sin`, `asin`, `atan(tan(…))`, `Math.random()` for NOISE) and the FM functions `freqModulateFunction` are floating-point trigonometry and an ambient random source. They are function-valued parameters; only the kinds' declaration order is modelled.
- `writeSignalToFile` and `writeWAVToFile`: file output through the Java sound library. `writeSignalToFile` takes the float buffer and calls `convertToDigital` itself (DSPService.java:81-82); `writeWAVToFile`'s input is `ConvertToDigital`'s result.
- The console:
  - `Scanner` prompting, the duration prompt, the fixed output paths and `main`'s calls that write the three files are left out.
  - The input is a sequence of tokens. The mask prompt reads string tokens; the parameter prompts read values already parsed as reals.
  - Parsing a token as a float is not modelled, so a malformed float token (where `nextFloat` throws) is not modelled either.
  - An exhausted input, where `Scanner` throws, is `None`.
- DSPService.ModulateByAmplitude: in Java, a zero raw peak of the modulator produces infinities or NaN, because floats do not trap on division by zero. Reals have no such values, so the model requires a nonzero peak.
- The calls `main` makes at Main.java:64, Main.java:73 and Main.java:76 do not match the signatures declared in WaveForm.java and DSPService.java. `MainProgram.GenerateAndMix` uses `DSPService.generateSignal` with the kind's formula. AM and FM are modelled through `DSPService`'s own signatures.
- `MainProgram.GenerateAndMix` requires at least one spec. An all-zero mask such as `0` is accepted by the mask pattern, selects nothing, and then makes `mixComplexSignal` fail on `get(0)` of an empty list. The model shows this through `MixComplexSignal`'s requirement of a nonempty list.
- DSPService.GenerateSignal, DSPService.BufferLength, MainProgram.GenerateAndMix: take `ms` as a natural number. A negative duration makes `new float[((int) (ms * 44100)) / 1000]` at DSPService.java:72 throw `NegativeArraySizeException`; the model does not represent that exception.
- DSPService.ConvertToDigital, DSPService.GetMaxSignalAmplitude, DSPService.ModulateByAmplitude: require a nonempty buffer. On an empty buffer, `signalBuffer[0]` at DSPService.java:125 throws `ArrayIndexOutOfBoundsException`, reached through `convertToDigital` (:104) and `modulateByAmplitude` (:33); the model does not represent that exception. It is reachable from `main`: a duration of 0 is accepted at Main.java:29, every buffer then has length `BufferLength(0) == 0`, and `writeSignalToFile` at Main.java:70 fails.
- DSPService.MixComplexSignal: requires that no later signal is longer than the first. Such a signal makes `resultSignal[i] += signal[i]` at DSPService.java:65 throw `ArrayIndexOutOfBoundsException`, which the model does not represent.
- `AudioFormatConstants.ChannelsCount`, `BitsPerSample` and `IsSigned` only describe the WAV header, which is not modelled.

## Findings

| source | as written | input that shows it | evidently intended | confidence | as-written member | corrected member |
|---|---|---|---|---|---|---|
| src/main/java/by/petrovlad/dsp/service/DSPService.java:104 | the encoder normalises by `max(getMaxSignalAmplitude(buffer), 1)`. That is the raw maximum, so a buffer whose large excursions are negative is never attenuated, and the scaled sample overflows 16 bits | the buffer `[-2.0]`: raw peak -2, divisor 1, `x = -65534`, bytes `[0, 2]`, which read back as `+2` | normalise by the largest absolute sample, so every sample lies in `[-divisor, divisor]` and reads back as its scaled value | not executed | DSPService.RawPeakWrapsNegativeSample | DSPService.NormalizedRoundTrip |
