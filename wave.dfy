/**
 * The RIFF/WAVE header that add_wav_header puts in front of a headerless
 * sample buffer: a 'RIFF' chunk of form type 'WAVE' holding a 'fmt ' chunk
 * and the header of a 'data' chunk. PCM uses format code 1 (WAVE_FORMAT_PCM)
 * and a 16-byte 'fmt ' chunk; mu-law (ITU-T G.711) uses format code 7
 * (WAVE_FORMAT_MULAW) and an 18-byte 'fmt ' chunk ending in a zero cbSize.
 */
module Wave {

  import opened Wrappers
  import opened Bytes
  import opened Seqs

  datatype Encoding = MuLaw | Pcm

  /** ValueError for an unknown audio_format, struct.error for a field the format cannot hold. */
  datatype WavError = UnsupportedFormat | FieldOutOfRange

  /** The values of one header, in the order struct.pack writes them. */
  datatype WavHeader = WavHeader(
    encoding: Encoding,
    chunkSize: int,
    fmtChunkSize: int,
    formatCode: int,
    numChannels: int,
    sampleRate: int,
    byteRate: int,
    blockAlign: int,
    bitsPerSample: int,
    dataSize: int)

  const RiffTag: seq<byte> := Ascii("RIFF")
  const WaveTag: seq<byte> := Ascii("WAVE")
  const FmtTag: seq<byte> := Ascii("fmt ")
  const DataTag: seq<byte> := Ascii("data")

  /** The audio_format argument: 'ulaw' or 'pcm', any other text is refused. */
  function EncodingOf(audioFormat: string): Option<Encoding> {
    if audioFormat == "ulaw" then Some(MuLaw)
    else if audioFormat == "pcm" then Some(Pcm)
    else None
  }

  function FormatCode(e: Encoding): nat {
    match e
    case MuLaw => 7
    case Pcm => 1
  }

  /** subchunk1_size: 16 when the format code is 1, 18 otherwise. */
  function FmtChunkSize(e: Encoding): nat {
    if FormatCode(e) == 1 then 16 else 18
  }

  /** Bytes before the payload: the RIFF preamble (12), the 'fmt ' chunk (8 + its size), the 'data' header (8). */
  function HeaderLength(e: Encoding): nat {
    12 + (8 + FmtChunkSize(e)) + 8
  }

  /**
   * The field values add_wav_header computes. For mu-law bits_per_sample is
   * forced to 8 whatever the argument. Python's // by 8 is floor division,
   * which on a positive divisor is the same as Dafny's Euclidean /.
   */
  function MakeHeader(e: Encoding, sampleRate: int, numChannels: int, bitsPerSample: int, dataSize: nat): WavHeader {
    var bits := if e == MuLaw then 8 else bitsPerSample;
    var fmtSize := FmtChunkSize(e);
    WavHeader(e, 4 + (8 + fmtSize) + (8 + dataSize), fmtSize, FormatCode(e), numChannels,
              sampleRate, sampleRate * numChannels * bits / 8, numChannels * bits / 8, bits, dataSize)
  }

  predicate U16Field(x: int) {
    0 <= x < 0x1_0000
  }

  predicate U32Field(x: int) {
    0 <= x < 0x1_0000_0000
  }

  /** struct.pack accepts an 'H' value in [0, 2^16) and an 'I' value in [0, 2^32). */
  predicate Packable(h: WavHeader) {
    && U32Field(h.chunkSize)
    && U32Field(h.fmtChunkSize)
    && U16Field(h.formatCode)
    && U16Field(h.numChannels)
    && U32Field(h.sampleRate)
    && U32Field(h.byteRate)
    && U16Field(h.blockAlign)
    && U16Field(h.bitsPerSample)
    && U32Field(h.dataSize)
  }

  /** 'RIFF', chunk_size, 'WAVE': the first twelve bytes. */
  function Preamble(h: WavHeader): (b: seq<byte>)
    requires Packable(h)
    ensures |b| == 12
  {
    RiffTag + LE(h.chunkSize, 4) + WaveTag
  }

  /** Format code, channels, sample rate, byte rate, block align, bits: '<HHIIHH'. */
  function FmtBody(h: WavHeader): (b: seq<byte>)
    requires Packable(h)
    ensures |b| == 16
  {
    (LE(h.formatCode, 2) + LE(h.numChannels, 2))
    + (LE(h.sampleRate, 4) + LE(h.byteRate, 4))
    + (LE(h.blockAlign, 2) + LE(h.bitsPerSample, 2))
  }

  /** The zero cbSize that ends the mu-law 'fmt ' chunk; PCM has none. */
  function FmtExtra(e: Encoding): (b: seq<byte>)
    ensures |b| == FmtChunkSize(e) - 16
  {
    if e == MuLaw then LE(0, 2) else []
  }

  /** The whole 'fmt ' chunk: its id, its size and its body. */
  function FmtChunk(h: WavHeader): (b: seq<byte>)
    requires Packable(h)
    ensures |b| == 8 + FmtChunkSize(h.encoding)
  {
    (FmtTag + LE(h.fmtChunkSize, 4)) + FmtBody(h) + FmtExtra(h.encoding)
  }

  /** 'data' and the payload length, the last eight header bytes. */
  function DataHeader(h: WavHeader): (b: seq<byte>)
    requires Packable(h)
    ensures |b| == 8
  {
    DataTag + LE(h.dataSize, 4)
  }

  /** The layout '<4sI4s4sIHHIIHH4sI' for PCM and '<4sI4s4sIHHIIHHH4sI' for mu-law. */
  function Serialize(h: WavHeader): (b: seq<byte>)
    requires Packable(h)
    ensures |b| == HeaderLength(h.encoding)
  {
    Preamble(h) + FmtChunk(h) + DataHeader(h)
  }

  /** struct.pack: the header bytes, or struct.error when a field is out of range. */
  function Pack(h: WavHeader): Result<seq<byte>, WavError> {
    if Packable(h) then Success(Serialize(h)) else Failure(FieldOutOfRange)
  }

  /**
   * Reads a header of the given layout back from the front of a byte string
   * (struct.unpack plus a check of the constant parts); None when the string
   * is too short or a tag or the mu-law cbSize is not what the layout fixes.
   */
  function Parse(e: Encoding, b: seq<byte>): Option<WavHeader> {
    var x := if e == MuLaw then 2 else 0;
    if |b| < HeaderLength(e) then None
    else if b[0..4] != RiffTag || b[8..12] != WaveTag || b[12..16] != FmtTag then None
    else if (e == MuLaw && b[36..38] != [0, 0]) || b[36 + x..40 + x] != DataTag then None
    else Some(WavHeader(e, FromLE(b[4..8]), FromLE(b[16..20]), FromLE(b[20..22]),
                        FromLE(b[22..24]), FromLE(b[24..28]), FromLE(b[28..32]),
                        FromLE(b[32..34]), FromLE(b[34..36]), FromLE(b[40 + x..44 + x])))
  }

  /** add_wav_header(audio_data, audio_format, sample_rate, num_channels, bits_per_sample). */
  function AddWavHeader(audioData: seq<byte>, audioFormat: string, sampleRate: int,
                        numChannels: int, bitsPerSample: int): (r: Result<seq<byte>, WavError>)
    ensures r == Failure(UnsupportedFormat) <==> audioFormat != "ulaw" && audioFormat != "pcm"
  {
    match EncodingOf(audioFormat)
    case None => Failure(UnsupportedFormat)
    case Some(e) =>
      match Pack(MakeHeader(e, sampleRate, numChannels, bitsPerSample, |audioData|))
      case Failure(err) => Failure(err)
      case Success(header) => Success(header + audioData)
  }

  lemma PreambleOffsets(h: WavHeader)
    requires Packable(h)
    ensures var p := Preamble(h);
      p[0..4] == RiffTag && p[4..8] == LE(h.chunkSize, 4) && p[8..12] == WaveTag
  {
    Concat3Slices(RiffTag, LE(h.chunkSize, 4), WaveTag);
  }

  lemma FmtBodyOffsets(h: WavHeader)
    requires Packable(h)
    ensures var f := FmtBody(h);
      && f[0..2] == LE(h.formatCode, 2) && f[2..4] == LE(h.numChannels, 2)
      && f[4..8] == LE(h.sampleRate, 4) && f[8..12] == LE(h.byteRate, 4)
      && f[12..14] == LE(h.blockAlign, 2) && f[14..16] == LE(h.bitsPerSample, 2)
  {
    var f := FmtBody(h);
    var a, b, c := LE(h.formatCode, 2) + LE(h.numChannels, 2), LE(h.sampleRate, 4) + LE(h.byteRate, 4),
                   LE(h.blockAlign, 2) + LE(h.bitsPerSample, 2);
    Concat3Slices(a, b, c);
    SliceOfSlice(f, 0, 4, 0, 2);
    SliceOfSlice(f, 0, 4, 2, 4);
    SliceOfSlice(f, 4, 12, 0, 4);
    SliceOfSlice(f, 4, 12, 4, 8);
    SliceOfSlice(f, 12, 16, 0, 2);
    SliceOfSlice(f, 12, 16, 2, 4);
  }

  lemma FmtChunkOffsets(h: WavHeader)
    requires Packable(h)
    ensures var c := FmtChunk(h);
      && c[0..4] == FmtTag && c[4..8] == LE(h.fmtChunkSize, 4) && c[8..24] == FmtBody(h)
      && (h.encoding == MuLaw ==> c[24..26] == [0, 0])
  {
    var c := FmtChunk(h);
    var head := FmtTag + LE(h.fmtChunkSize, 4);
    Concat3Slices(head, FmtBody(h), FmtExtra(h.encoding));
    SliceOfSlice(c, 0, 8, 0, 4);
    SliceOfSlice(c, 0, 8, 4, 8);
    if h.encoding == MuLaw {
      LEOfSmall(0);
    }
  }

  lemma DataHeaderOffsets(h: WavHeader)
    requires Packable(h)
    ensures var d := DataHeader(h); d[0..4] == DataTag && d[4..8] == LE(h.dataSize, 4)
  {
    assert DataHeader(h)[..4] == DataTag;
  }

  /** Where each field of a serialized header sits. */
  lemma SerializeOffsets(h: WavHeader)
    requires Packable(h)
    ensures var b, x := Serialize(h), if h.encoding == MuLaw then 2 else 0;
      && b[0..4] == RiffTag && b[4..8] == LE(h.chunkSize, 4)
      && b[8..12] == WaveTag && b[12..16] == FmtTag && b[16..20] == LE(h.fmtChunkSize, 4)
      && b[20..22] == LE(h.formatCode, 2) && b[22..24] == LE(h.numChannels, 2)
      && b[24..28] == LE(h.sampleRate, 4) && b[28..32] == LE(h.byteRate, 4)
      && b[32..34] == LE(h.blockAlign, 2) && b[34..36] == LE(h.bitsPerSample, 2)
      && (h.encoding == MuLaw ==> b[36..38] == [0, 0])
      && b[36 + x..40 + x] == DataTag && b[40 + x..44 + x] == LE(h.dataSize, 4)
  {
    var b, x := Serialize(h), if h.encoding == MuLaw then 2 else 0;
    var n := |FmtChunk(h)|;
    Concat3Slices(Preamble(h), FmtChunk(h), DataHeader(h));
    PreambleOffsets(h);
    FmtChunkOffsets(h);
    FmtBodyOffsets(h);
    DataHeaderOffsets(h);
    SliceOfSlice(b, 0, 12, 0, 4);
    SliceOfSlice(b, 0, 12, 4, 8);
    SliceOfSlice(b, 0, 12, 8, 12);
    SliceOfSlice(b, 12, 12 + n, 0, 4);
    SliceOfSlice(b, 12, 12 + n, 4, 8);
    SliceOfSlice(b, 12, 12 + n, 8, 24);
    var f := b[20..36];
    SliceOfSlice(b, 20, 36, 0, 2);
    SliceOfSlice(b, 20, 36, 2, 4);
    SliceOfSlice(b, 20, 36, 4, 8);
    SliceOfSlice(b, 20, 36, 8, 12);
    SliceOfSlice(b, 20, 36, 12, 14);
    SliceOfSlice(b, 20, 36, 14, 16);
    if h.encoding == MuLaw {
      SliceOfSlice(b, 12, 12 + n, 24, 26);
    }
    SliceOfSlice(b, 12 + n, 20 + n, 0, 4);
    SliceOfSlice(b, 12 + n, 20 + n, 4, 8);
  }

  /** Parsing a serialized header, with any payload after it, gives the header back. */
  lemma ParseSerialize(h: WavHeader, payload: seq<byte>)
    requires Packable(h)
    ensures Parse(h.encoding, Serialize(h) + payload) == Some(h)
  {
    var b := Serialize(h);
    var s := b + payload;
    var x := if h.encoding == MuLaw then 2 else 0;
    SerializeOffsets(h);
    PrefixSlices(b, payload, 0, 4);
    PrefixSlices(b, payload, 4, 8);
    PrefixSlices(b, payload, 8, 12);
    PrefixSlices(b, payload, 12, 16);
    PrefixSlices(b, payload, 16, 20);
    PrefixSlices(b, payload, 20, 22);
    PrefixSlices(b, payload, 22, 24);
    PrefixSlices(b, payload, 24, 28);
    PrefixSlices(b, payload, 28, 32);
    PrefixSlices(b, payload, 32, 34);
    PrefixSlices(b, payload, 34, 36);
    if h.encoding == MuLaw {
      PrefixSlices(b, payload, 36, 38);
    }
    PrefixSlices(b, payload, 36 + x, 40 + x);
    PrefixSlices(b, payload, 40 + x, 44 + x);
    FromLEOfLE(h.chunkSize, 4);
    FromLEOfLE(h.fmtChunkSize, 4);
    FromLEOfLE(h.formatCode, 2);
    FromLEOfLE(h.numChannels, 2);
    FromLEOfLE(h.sampleRate, 4);
    FromLEOfLE(h.byteRate, 4);
    FromLEOfLE(h.blockAlign, 2);
    FromLEOfLE(h.bitsPerSample, 2);
    FromLEOfLE(h.dataSize, 4);
  }

  /**
   * When a recognised format succeeds: exactly when every packed field fits
   * its width. Otherwise the error is struct.error, never the format error.
   */
  lemma AddWavHeaderSucceeds(audioData: seq<byte>, audioFormat: string, sampleRate: int,
                             numChannels: int, bitsPerSample: int)
    requires audioFormat == "ulaw" || audioFormat == "pcm"
    ensures var r := AddWavHeader(audioData, audioFormat, sampleRate, numChannels, bitsPerSample);
            var bits := if audioFormat == "ulaw" then 8 else bitsPerSample;
            var fixedSize := if audioFormat == "ulaw" then 38 else 36;
            && (r.Failure? ==> r.error == FieldOutOfRange)
            && (r.Success? <==>
                  && 0 <= sampleRate < 0x1_0000_0000
                  && 0 <= numChannels < 0x1_0000
                  && 0 <= bits < 0x1_0000
                  && sampleRate * numChannels * bits / 8 < 0x1_0000_0000
                  && numChannels * bits / 8 < 0x1_0000
                  && fixedSize + |audioData| < 0x1_0000_0000)
  {
    var bits := if audioFormat == "ulaw" then 8 else bitsPerSample;
    if 0 <= sampleRate && 0 <= numChannels && 0 <= bits {
      assert 0 <= numChannels * bits;
      assert 0 <= sampleRate * numChannels * bits;
    }
  }

  /**
   * The header of a successful call, read back: chunk_size is the output
   * length minus 8, the format code, 'fmt ' size and bit depth are the ones
   * the encoding fixes, byte_rate and block_align are derived from the
   * arguments, and the data size is the payload length.
   */
  lemma AddWavHeaderFields(audioData: seq<byte>, audioFormat: string, sampleRate: int,
                           numChannels: int, bitsPerSample: int)
    requires AddWavHeader(audioData, audioFormat, sampleRate, numChannels, bitsPerSample).Success?
    ensures var out := AddWavHeader(audioData, audioFormat, sampleRate, numChannels, bitsPerSample).value;
      && (audioFormat == "ulaw" ==>
            && |out| == 46 + |audioData| && out[46..] == audioData
            && Parse(MuLaw, out) == Some(WavHeader(MuLaw, |out| - 8, 18, 7, numChannels, sampleRate,
                                                   sampleRate * numChannels, numChannels, 8, |audioData|)))
      && (audioFormat == "pcm" ==>
            && |out| == 44 + |audioData| && out[44..] == audioData
            && Parse(Pcm, out) == Some(WavHeader(Pcm, |out| - 8, 16, 1, numChannels, sampleRate,
                                                 sampleRate * numChannels * bitsPerSample / 8,
                                                 numChannels * bitsPerSample / 8, bitsPerSample, |audioData|)))
  {
    var e := EncodingOf(audioFormat).value;
    var h := MakeHeader(e, sampleRate, numChannels, bitsPerSample, |audioData|);
    ParseSerialize(h, audioData);
    if e == MuLaw {
      assert sampleRate * numChannels * 8 / 8 == sampleRate * numChannels;
      assert numChannels * 8 / 8 == numChannels;
    }
  }

  /**
   * The bytes of a successful call: the ASCII tags at offsets 0, 8 and 12 and
   * 'data' 8 bytes before the payload, chunk_size at 4, the format code at 20,
   * byte_rate at 28, block_align at 32, the payload length in the last four
   * header bytes, and for mu-law bits_per_sample 8 followed by a zero cbSize.
   */
  lemma AddWavHeaderBytes(audioData: seq<byte>, audioFormat: string, sampleRate: int,
                          numChannels: int, bitsPerSample: int)
    requires AddWavHeader(audioData, audioFormat, sampleRate, numChannels, bitsPerSample).Success?
    ensures var out := AddWavHeader(audioData, audioFormat, sampleRate, numChannels, bitsPerSample).value;
            var n := if audioFormat == "ulaw" then 46 else 44;
            var bits := if audioFormat == "ulaw" then 8 else bitsPerSample;
      && out[0..4] == RiffTag && out[8..12] == WaveTag && out[12..16] == FmtTag
      && out[4..8] == LE(|out| - 8, 4)
      && out[16..20] == (if audioFormat == "ulaw" then [18, 0, 0, 0] else [16, 0, 0, 0])
      && out[20..22] == (if audioFormat == "ulaw" then [7, 0] else [1, 0])
      && out[28..32] == LE(sampleRate * numChannels * bits / 8, 4)
      && out[32..34] == LE(numChannels * bits / 8, 2)
      && out[n - 8..n - 4] == DataTag && out[n - 4..n] == LE(|audioData|, 4)
      && (audioFormat == "ulaw" ==> out[34..38] == [8, 0, 0, 0])
  {
    var e := EncodingOf(audioFormat).value;
    var h := MakeHeader(e, sampleRate, numChannels, bitsPerSample, |audioData|);
    var b := Serialize(h);
    var out := b + audioData;
    var n := HeaderLength(e);
    SerializeOffsets(h);
    PrefixSlices(b, audioData, 0, 4);
    PrefixSlices(b, audioData, 4, 8);
    PrefixSlices(b, audioData, 8, 12);
    PrefixSlices(b, audioData, 12, 16);
    PrefixSlices(b, audioData, 16, 20);
    PrefixSlices(b, audioData, 20, 22);
    PrefixSlices(b, audioData, 28, 32);
    PrefixSlices(b, audioData, 32, 34);
    PrefixSlices(b, audioData, n - 8, n - 4);
    PrefixSlices(b, audioData, n - 4, n);
    LEOfSmall(FormatCode(e));
    LEOfSmall(FmtChunkSize(e));
    if e == MuLaw {
      PrefixSlices(b, audioData, 34, 38);
      assert b[34..38] == b[34..36] + b[36..38];
      LEOfSmall(8);
    }
  }

  /** PCM at 16000 Hz, one channel, 16 bits, no samples: byte_rate 32000, block_align 2, format code 1. */
  lemma PcmExample(samples: seq<byte>)
    requires samples == []
    ensures var r := AddWavHeader(samples, "pcm", 16000, 1, 16);
      && r.Success? && |r.value| == 44
      && r.value[28..32] == [0x00, 0x7D, 0x00, 0x00]
      && r.value[32..34] == [2, 0]
      && r.value[20..22] == [1, 0]
  {
    var h := MakeHeader(Pcm, 16000, 1, 16, 0);
    assert h.byteRate == 32000 && h.blockAlign == 2 && h.formatCode == 1;
    assert Packable(h);
    SerializeOffsets(h);
    var out := Serialize(h) + samples;
    assert AddWavHeader(samples, "pcm", 16000, 1, 16) == Success(out);
    assert out == Serialize(h);
    assert 32000 % 256 == 0 && 32000 / 256 == 0x7D;
    LEOfSmall(0x7D);
    assert LE(32000, 4) == [0] + LE(0x7D, 3);
    LEOfSmall(2);
    LEOfSmall(1);
  }

  /** Mu-law at 8000 Hz with 100 samples: an 18-byte 'fmt ' chunk and a zero cbSize right after bits_per_sample. */
  lemma MuLawExample(samples: seq<byte>, sampleRate: int)
    requires |samples| == 100 && sampleRate == 8000
    ensures var r := AddWavHeader(samples, "ulaw", sampleRate, 1, 8);
      && r.Success? && |r.value| == 146
      && r.value[16..20] == [18, 0, 0, 0]
      && r.value[34..36] == [8, 0] && r.value[36..38] == [0, 0]
      && r.value[42..46] == [100, 0, 0, 0]
  {
    AddWavHeaderSucceeds(samples, "ulaw", sampleRate, 1, 8);
    AddWavHeaderBytes(samples, "ulaw", sampleRate, 1, 8);
    var out := AddWavHeader(samples, "ulaw", sampleRate, 1, 8).value;
    assert out[34..38][..2] == out[34..36] && out[34..38][2..] == out[36..38];
    LEOfSmall(100);
  }
}
