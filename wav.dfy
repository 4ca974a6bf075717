/**
 * `AudioHelper.convertToWavData`: the canonical 44-byte RIFF/WAVE PCM header of the
 * Multimedia Programming Interface and Data Specifications 1.0 (chapter 3, WAVE form,
 * `fmt ` chunk with WAVE_FORMAT_PCM, then the `data` chunk), followed by the samples.
 * Multi-byte fields are the raw bytes `Data(from:)` copies on a little-endian target.
 */
module Wav {
  import opened Wrappers
  import opened Pcm

  type Byte = x: int | 0 <= x < 256

  const U16Limit: int := 0x1_0000
  const U32Limit: int := 0x1_0000_0000

  /** Little-endian bytes of an unsigned 16-bit value. */
  function LE16(v: int): (r: seq<Byte>)
    requires 0 <= v < U16Limit
    ensures |r| == 2 && r[0] as int + 256 * (r[1] as int) == v
  {
    [v % 256, v / 256]
  }

  /** Little-endian bytes of an unsigned 32-bit value. */
  function LE32(v: int): (r: seq<Byte>)
    requires 0 <= v < U32Limit
    ensures |r| == 4 && r[..2] == LE16(v % U16Limit) && r[2..] == LE16(v / U16Limit)
    ensures (r[0] as int + 256 * (r[1] as int)) + U16Limit * (r[2] as int + 256 * (r[3] as int)) == v
  {
    LE16(v % U16Limit) + LE16(v / U16Limit)
  }

  function U16At(b: seq<Byte>, off: nat): int
    requires off + 2 <= |b|
  {
    b[off] as int + 256 * (b[off + 1] as int)
  }

  function U32At(b: seq<Byte>, off: nat): int
    requires off + 4 <= |b|
  {
    U16At(b, off) + U16Limit * U16At(b, off + 2)
  }

  predicate IsAscii(s: string) {
    forall i :: 0 <= i < |s| ==> s[i] as int < 128
  }

  /** `s.data(using: .ascii)`. */
  function Ascii(s: string): (r: seq<Byte>)
    requires IsAscii(s)
    ensures |r| == |s| && forall i :: 0 <= i < |s| ==> r[i] == s[i] as int
  {
    seq(|s|, i requires 0 <= i < |s| => s[i] as int)
  }

  /** The two bytes of one sample, two's complement little-endian. */
  function SampleBytes(x: int): (r: seq<Byte>)
    requires IsSample(x)
    ensures |r| == 2
  {
    LE16(if x < 0 then x + U16Limit else x)
  }

  function DecodeSample(lo: Byte, hi: Byte): int {
    var v := lo as int + 256 * (hi as int);
    if v >= 32768 then v - U16Limit else v
  }

  lemma DecodeSampleBytes(x: int)
    requires IsSample(x)
    ensures DecodeSample(SampleBytes(x)[0], SampleBytes(x)[1]) == x
  {
  }

  /** `pcmData.withUnsafeBytes { Data($0) }`: every sample, in order, as two bytes. */
  function PcmBytes(pcm: seq<int>): (r: seq<Byte>)
    requires AllSamples(pcm)
    ensures |r| == 2 * |pcm|
    decreases |pcm|
  {
    if pcm == [] then [] else PcmBytes(pcm[..|pcm| - 1]) + SampleBytes(pcm[|pcm| - 1])
  }

  function DecodePcm(b: seq<Byte>): (r: seq<int>)
    requires |b| % 2 == 0
    ensures |r| == |b| / 2
  {
    seq(|b| / 2, k requires 0 <= k < |b| / 2 => DecodeSample(b[2 * k], b[2 * k + 1]))
  }

  /** The bytes of sample k sit at offsets 2k and 2k+1. */
  lemma {:induction false} PcmBytesAt(pcm: seq<int>, k: nat)
    requires AllSamples(pcm) && k < |pcm|
    ensures PcmBytes(pcm)[2 * k] == SampleBytes(pcm[k])[0]
    ensures PcmBytes(pcm)[2 * k + 1] == SampleBytes(pcm[k])[1]
    decreases |pcm|
  {
    var init := pcm[..|pcm| - 1];
    if k < |pcm| - 1 {
      PcmBytesAt(init, k);
      assert init[k] == pcm[k];
    }
  }

  /** Decoding the payload gives back the samples. */
  lemma PcmRoundTrip(pcm: seq<int>)
    requires AllSamples(pcm)
    ensures DecodePcm(PcmBytes(pcm)) == pcm
  {
    var d := DecodePcm(PcmBytes(pcm));
    forall k | 0 <= k < |pcm| ensures d[k] == pcm[k] {
      PcmBytesAt(pcm, k);
      DecodeSampleBytes(pcm[k]);
    }
  }

  /**
   * What Swift's checked arithmetic lets through: `byteRate` and `blockAlign` are
   * computed in UInt32 and UInt16, `dataSize` is converted to UInt32 and
   * `36 + dataSize` is UInt32; any overflow traps.
   */
  predicate Representable(n: nat, sampleRate: int, numChannels: int, bitsPerSample: int) {
    && 0 <= sampleRate < U32Limit && 0 <= numChannels < U16Limit && 0 <= bitsPerSample < U16Limit
    && sampleRate * numChannels < U32Limit
    && ByteRate(sampleRate, numChannels, bitsPerSample) < U32Limit
    && BlockAlign(numChannels, bitsPerSample) < U16Limit
    && 36 + 2 * n < U32Limit
  }

  /** `sampleRate * numChannels * (bitsPerSample / 8)`. */
  function ByteRate(sampleRate: nat, numChannels: nat, bitsPerSample: nat): nat {
    sampleRate * numChannels * (bitsPerSample / 8)
  }

  /** `numChannels * (bitsPerSample / 8)`. */
  function BlockAlign(numChannels: nat, bitsPerSample: nat): nat {
    numChannels * (bitsPerSample / 8)
  }

  function Header(n: nat, sampleRate: int, numChannels: int, bitsPerSample: int): (r: seq<Byte>)
    requires Representable(n, sampleRate, numChannels, bitsPerSample)
    ensures |r| == 44
  {
    Ascii("RIFF") + LE32(36 + 2 * n) + Ascii("WAVEfmt ") + LE32(16) + LE16(1) + LE16(numChannels)
    + LE32(sampleRate) + LE32(ByteRate(sampleRate, numChannels, bitsPerSample))
    + LE16(BlockAlign(numChannels, bitsPerSample)) + LE16(bitsPerSample)
    + Ascii("data") + LE32(2 * n)
  }

  /** The whole file `convertToWavData` returns. */
  function WavBytes(pcm: seq<int>, sampleRate: int, numChannels: int, bitsPerSample: int): (w: seq<Byte>)
    requires AllSamples(pcm) && Representable(|pcm|, sampleRate, numChannels, bitsPerSample)
    ensures |w| == 44 + 2 * |pcm|
  {
    Header(|pcm|, sampleRate, numChannels, bitsPerSample) + PcmBytes(pcm)
  }

  method ConvertToWavData(pcmData: seq<int>, sampleRate: int, numChannels: int, bitsPerSample: int)
    returns (data: seq<Byte>)
    requires AllSamples(pcmData) && Representable(|pcmData|, sampleRate, numChannels, bitsPerSample)
    ensures data == WavBytes(pcmData, sampleRate, numChannels, bitsPerSample)
  {
    var byteRate := ByteRate(sampleRate, numChannels, bitsPerSample);
    var blockAlign := BlockAlign(numChannels, bitsPerSample);
    var dataSize := |pcmData| * 2;
    var chunkSize := 36 + dataSize;

    var header: seq<Byte> := [];
    header := header + Ascii("RIFF");
    header := header + LE32(chunkSize);
    header := header + Ascii("WAVEfmt ");
    header := header + LE32(16);
    header := header + LE16(1);
    header := header + LE16(numChannels);
    header := header + LE32(sampleRate);
    header := header + LE32(byteRate);
    header := header + LE16(blockAlign);
    header := header + LE16(bitsPerSample);
    header := header + Ascii("data");
    header := header + LE32(dataSize);
    assert header == Header(|pcmData|, sampleRate, numChannels, bitsPerSample);

    // The samples' memory, copied as one block: little-endian two's-complement pairs.
    var audioData := PcmBytes(pcmData);
    header := header + audioData;
    data := header;
  }

  /** The header fields, as a reader of the file sees them. */
  datatype WavFile = WavFile(
    chunkSize: int, fmtSize: int, audioFormat: int, numChannels: int, sampleRate: int,
    byteRate: int, blockAlign: int, bitsPerSample: int, dataSize: int, samples: seq<int>)

  /** A reader for the layout `convertToWavData` writes: tags, fields at their offsets, then samples. */
  function ParseWav(b: seq<Byte>): Option<WavFile> {
    if |b| < 44 || b[0..4] != Ascii("RIFF") || b[8..16] != Ascii("WAVEfmt ") || b[36..40] != Ascii("data") then None
    else
      var dataSize := U32At(b, 40);
      if |b| - 44 != dataSize || dataSize % 2 != 0 then None
      else Some(WavFile(U32At(b, 4), U32At(b, 16), U16At(b, 20), U16At(b, 22), U32At(b, 24),
                        U32At(b, 28), U16At(b, 32), U16At(b, 34), dataSize, DecodePcm(b[44..])))
  }

  lemma ReadLE16(b: seq<Byte>, off: nat, v: int)
    requires 0 <= v < U16Limit && off + 2 <= |b| && b[off..off + 2] == LE16(v)
    ensures U16At(b, off) == v
  {
    assert b[off] == b[off..off + 2][0] && b[off + 1] == b[off..off + 2][1];
  }

  lemma ReadLE32(b: seq<Byte>, off: nat, v: int)
    requires 0 <= v < U32Limit && off + 4 <= |b| && b[off..off + 4] == LE32(v)
    ensures U32At(b, off) == v
  {
    assert b[off..off + 2] == b[off..off + 4][..2];
    assert b[off + 2..off + 4] == b[off..off + 4][2..];
    ReadLE16(b, off, v % U16Limit);
    ReadLE16(b, off + 2, v / U16Limit);
  }

  /** Where each field of the header starts. */
  lemma HeaderSlices(n: nat, sampleRate: int, numChannels: int, bitsPerSample: int)
    requires Representable(n, sampleRate, numChannels, bitsPerSample)
    ensures var h := Header(n, sampleRate, numChannels, bitsPerSample);
      && h[0..4] == Ascii("RIFF") && h[4..8] == LE32(36 + 2 * n) && h[8..16] == Ascii("WAVEfmt ")
      && h[16..20] == LE32(16) && h[20..22] == LE16(1) && h[22..24] == LE16(numChannels)
      && h[24..28] == LE32(sampleRate) && h[28..32] == LE32(ByteRate(sampleRate, numChannels, bitsPerSample))
      && h[32..34] == LE16(BlockAlign(numChannels, bitsPerSample)) && h[34..36] == LE16(bitsPerSample)
      && h[36..40] == Ascii("data") && h[40..44] == LE32(2 * n)
  {
  }

  /**
   * The layout: length 44 + 2n; "RIFF" at 0, "WAVEfmt " at 8, "data" at 36; chunk size
   * 36 + 2n at 4, subchunk size 16 at 16, format 1 at 20, channels at 22, sample rate
   * at 24, byte rate at 28, block align at 32, bits per sample at 34, data size 2n at 40,
   * and the samples from 44 on.
   */
  lemma HeaderLayout(pcm: seq<int>, sampleRate: int, numChannels: int, bitsPerSample: int)
    requires AllSamples(pcm) && Representable(|pcm|, sampleRate, numChannels, bitsPerSample)
    ensures var w := WavBytes(pcm, sampleRate, numChannels, bitsPerSample);
      && |w| == 44 + 2 * |pcm|
      && w[0..4] == Ascii("RIFF") && w[8..16] == Ascii("WAVEfmt ") && w[36..40] == Ascii("data")
      && U32At(w, 4) == 36 + 2 * |pcm| && U32At(w, 16) == 16 && U16At(w, 20) == 1
      && U16At(w, 22) == numChannels && U32At(w, 24) == sampleRate
      && U32At(w, 28) == ByteRate(sampleRate, numChannels, bitsPerSample)
      && U16At(w, 32) == BlockAlign(numChannels, bitsPerSample) && U16At(w, 34) == bitsPerSample
      && U32At(w, 40) == 2 * |pcm| && w[44..] == PcmBytes(pcm)
  {
    HeaderFields(|pcm|, sampleRate, numChannels, bitsPerSample);
    HeaderSlices(|pcm|, sampleRate, numChannels, bitsPerSample);
    SameHeader(Header(|pcm|, sampleRate, numChannels, bitsPerSample), PcmBytes(pcm));
  }

  /** The numeric fields of the header, read back. */
  lemma HeaderFields(n: nat, sampleRate: int, numChannels: int, bitsPerSample: int)
    requires Representable(n, sampleRate, numChannels, bitsPerSample)
    ensures var h := Header(n, sampleRate, numChannels, bitsPerSample);
      && U32At(h, 4) == 36 + 2 * n && U32At(h, 16) == 16 && U16At(h, 20) == 1
      && U16At(h, 22) == numChannels && U32At(h, 24) == sampleRate
      && U32At(h, 28) == ByteRate(sampleRate, numChannels, bitsPerSample)
      && U16At(h, 32) == BlockAlign(numChannels, bitsPerSample) && U16At(h, 34) == bitsPerSample
      && U32At(h, 40) == 2 * n
  {
    var h := Header(n, sampleRate, numChannels, bitsPerSample);
    HeaderSlices(n, sampleRate, numChannels, bitsPerSample);
    ReadLE32(h, 4, 36 + 2 * n);
    ReadLE32(h, 16, 16);
    ReadLE16(h, 20, 1);
    ReadLE16(h, 22, numChannels);
    ReadLE32(h, 24, sampleRate);
    ReadLE32(h, 28, ByteRate(sampleRate, numChannels, bitsPerSample));
    ReadLE16(h, 32, BlockAlign(numChannels, bitsPerSample));
    ReadLE16(h, 34, bitsPerSample);
    ReadLE32(h, 40, 2 * n);
  }

  /** A file that starts with a header reads the header's fields and tags. */
  lemma SameHeader(h: seq<Byte>, rest: seq<Byte>)
    requires |h| == 44
    ensures var w := h + rest;
      && w[0..4] == h[0..4] && w[8..16] == h[8..16] && w[36..40] == h[36..40] && w[44..] == rest
      && U32At(w, 4) == U32At(h, 4) && U32At(w, 16) == U32At(h, 16) && U16At(w, 20) == U16At(h, 20)
      && U16At(w, 22) == U16At(h, 22) && U32At(w, 24) == U32At(h, 24) && U32At(w, 28) == U32At(h, 28)
      && U16At(w, 32) == U16At(h, 32) && U16At(w, 34) == U16At(h, 34) && U32At(w, 40) == U32At(h, 40)
  {
  }

  /** Reading the file back yields the header `convertToWavData` promises and the original samples. */
  lemma WavRoundTrip(pcm: seq<int>, sampleRate: int, numChannels: int, bitsPerSample: int)
    requires AllSamples(pcm) && Representable(|pcm|, sampleRate, numChannels, bitsPerSample)
    ensures ParseWav(WavBytes(pcm, sampleRate, numChannels, bitsPerSample)) ==
      Some(WavFile(36 + 2 * |pcm|, 16, 1, numChannels, sampleRate,
                   ByteRate(sampleRate, numChannels, bitsPerSample), BlockAlign(numChannels, bitsPerSample),
                   bitsPerSample, 2 * |pcm|, pcm))
  {
    HeaderLayout(pcm, sampleRate, numChannels, bitsPerSample);
    PcmRoundTrip(pcm);
  }
}
