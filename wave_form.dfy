/**
 * The five waveform kinds, in declaration order. Only the order matters to the model: bit `i` of the
 * user's mask selects the kind whose ordinal is `i`. The per-kind sample formulas (sine, arcsine,
 * arctangent, random noise) are not modelled; the operations that use them take them as parameters.
 */
module WaveForms {

  datatype WaveForm = Sine | Square | Triangle | Sawtooth | Noise

  /** Number of waveform kinds, which is also the maximum number of mask digits. */
  const WaveFormsCount: nat := 5

  /** Position of a kind in the declaration order (Java's `ordinal()`). */
  function Ordinal(w: WaveForm): (i: nat)
    ensures i < WaveFormsCount
  {
    match w
    case Sine => 0
    case Square => 1
    case Triangle => 2
    case Sawtooth => 3
    case Noise => 4
  }

  /** The kind at position `i` of the declaration order (Java's `values()[i]`). */
  function KindAt(i: nat): (w: WaveForm)
    requires i < WaveFormsCount
    ensures Ordinal(w) == i
  {
    if i == 0 then Sine
    else if i == 1 then Square
    else if i == 2 then Triangle
    else if i == 3 then Sawtooth
    else Noise
  }

  /** `values()[w.ordinal()] == w`: the declaration order lists every kind exactly once. */
  lemma {:induction false} KindAtOrdinal(w: WaveForm)
    ensures KindAt(Ordinal(w)) == w
  {
    match w
    case Sine =>
    case Square =>
    case Triangle =>
    case Sawtooth =>
    case Noise =>
  }
}
