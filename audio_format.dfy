/** The fixed audio format of the synthesizer: 44100 Hz, 16-bit, mono, signed PCM, big-endian. */
module AudioFormatConstants {

  /** Samples per second; every buffer is indexed at this rate. */
  const SamplingRate: nat := 44100

  /** Bits per PCM sample; the encoder writes two bytes per sample. */
  const BitsPerSample: nat := 16

  const ChannelsCount: nat := 1

  const IsSigned: bool := true

  /** Byte order of the PCM output: the high byte of each sample comes first. */
  const IsBigEndian: bool := true
}
