/**
 * The output-format string: whether the fetched audio gets a WAVE header and
 * with which parameters, and which file extension the batch writes.
 */
module Formats {

  import opened Wrappers
  import opened Bytes
  import opened Decimal
  import opened Wave

  /** The formats accepted by the configuration check. */
  const ValidFormats: seq<string> :=
    ["mp3_44100", "pcm_16000", "pcm_22050", "pcm_24000", "pcm_44100", "ulaw_8000"]

  /** The arguments of one add_wav_header call. */
  datatype HeaderArgs = HeaderArgs(audioFormat: string, sampleRate: int, numChannels: int, bitsPerSample: int)

  /** Errors raised while preparing the bytes to write. */
  datatype FormatError =
    | NoRateField            // IndexError: a 'pcm' format with no '_'
    | RateNotInteger         // ValueError: the second piece of split('_') is not an integer
    | HeaderRejected(error: WavError)

  predicate StartsWith(s: string, prefix: string) {
    |prefix| <= |s| && s[..|prefix|] == prefix
  }

  /** str.split(c): the pieces between the occurrences of c, empty ones included. */
  function Split(s: string, c: char): (parts: seq<string>)
    ensures |parts| >= 1
  {
    if s == [] then [[]]
    else
      var rest := Split(s[1..], c);
      if s[0] == c then [[]] + rest else [[s[0]] + rest[0]] + rest[1..]
  }

  /** c.join(parts). */
  function Join(parts: seq<string>, c: char): string
    requires |parts| >= 1
  {
    if |parts| == 1 then parts[0] else parts[0] + [c] + Join(parts[1..], c)
  }

  /**
   * The header an output format calls for, before any audio is seen:
   * ulaw_8000 takes add_wav_header's defaults, a format starting with 'pcm'
   * takes the integer in the second piece of split('_') (the text between the
   * first and the second '_') as its sample rate, and any other format is
   * written as fetched.
   */
  function HeaderPlan(outputFormat: string): Result<Option<HeaderArgs>, FormatError> {
    if outputFormat == "ulaw_8000" then Success(Some(HeaderArgs("ulaw", 8000, 1, 8)))
    else if StartsWith(outputFormat, "pcm") then
      var parts := Split(outputFormat, '_');
      if |parts| < 2 then Failure(NoRateField)
      else
        match ParseInt(parts[1])
        case None => Failure(RateNotInteger)
        case Some(rate) => Success(Some(HeaderArgs("pcm", rate, 1, 8)))
    else Success(None)
  }

  /** The bytes written for one synthesised text: the audio, with the header its format calls for. */
  function Encode(outputFormat: string, audio: seq<byte>): (r: Result<seq<byte>, FormatError>)
    ensures r.Success? ==> |audio| <= |r.value| && r.value[|r.value| - |audio|..] == audio
    ensures HeaderPlan(outputFormat).Failure? ==> r == Failure(HeaderPlan(outputFormat).error)
    ensures HeaderPlan(outputFormat) == Success(None) ==> r == Success(audio)
    ensures HeaderPlan(outputFormat).Success? && HeaderPlan(outputFormat).value.Some? ==>
              (r.Success? ==> |r.value| > |audio|) &&
              (r.Failure? ==> r.error == HeaderRejected(FieldOutOfRange))
  {
    match HeaderPlan(outputFormat)
    case Failure(e) => Failure(e)
    case Success(None) => Success(audio)
    case Success(Some(a)) =>
      match AddWavHeader(audio, a.audioFormat, a.sampleRate, a.numChannels, a.bitsPerSample)
      case Failure(e) =>
        AddWavHeaderSucceeds(audio, a.audioFormat, a.sampleRate, a.numChannels, a.bitsPerSample);
        Failure(HeaderRejected(e))
      case Success(b) =>
        AddWavHeaderFields(audio, a.audioFormat, a.sampleRate, a.numChannels, a.bitsPerSample);
        Success(b)
  }

  /** The extension of the batch's file names: mp3 for mp3_44100, wav for everything else. */
  function Extension(outputFormat: string): (ext: string)
    ensures ext == "mp3" || ext == "wav"
    ensures ext == "mp3" <==> outputFormat == "mp3_44100"
  {
    if outputFormat == "mp3_44100" then "mp3" else "wav"
  }

  lemma {:induction false} SplitJoin(s: string, c: char)
    ensures Join(Split(s, c), c) == s
  {
    if s != [] {
      var rest := Split(s[1..], c);
      SplitJoin(s[1..], c);
      if s[0] == c {
        assert Split(s, c)[1..] == rest;
      } else if |rest| == 1 {
        assert Join(Split(s, c), c) == [s[0]] + rest[0];
      } else {
        assert Split(s, c)[1..] == rest[1..];
        assert Join(rest, c) == rest[0] + [c] + Join(rest[1..], c);
      }
    }
  }

  /** Splitting a piece without c that is followed by more text. */
  lemma {:induction false} SplitNoSeparator(p: string, t: string, c: char)
    requires c !in p
    ensures Split(p + t, c) == [p + Split(t, c)[0]] + Split(t, c)[1..]
  {
    if p == [] {
      assert p + t == t;
      assert Split(t, c) == [Split(t, c)[0]] + Split(t, c)[1..];
      assert p + Split(t, c)[0] == Split(t, c)[0];
    } else {
      assert (p + t)[1..] == p[1..] + t;
      SplitNoSeparator(p[1..], t, c);
      assert [p[0]] + (p[1..] + Split(t, c)[0]) == p + Split(t, c)[0];
    }
  }

  lemma {:induction false} JoinSplit(parts: seq<string>, c: char)
    requires |parts| >= 1 && forall i :: 0 <= i < |parts| ==> c !in parts[i]
    ensures Split(Join(parts, c), c) == parts
  {
    if |parts| == 1 {
      SplitNoSeparator(parts[0], [], c);
      assert parts[0] + [] == parts[0];
    } else {
      var rest := parts[1..];
      JoinSplit(rest, c);
      var t := [c] + Join(rest, c);
      assert t[1..] == Join(rest, c);
      assert Split(t, c) == [[]] + parts[1..];
      SplitNoSeparator(parts[0], t, c);
      assert parts[0] + t == Join(parts, c);
      assert parts[0] + [] == parts[0];
    }
  }

  /** str.split gives more than one piece exactly when the separator occurs. */
  lemma {:induction false} SplitCount(s: string, c: char)
    ensures |Split(s, c)| >= 2 <==> c in s
  {
    if s != [] {
      SplitCount(s[1..], c);
      assert s == [s[0]] + s[1..];
    }
  }

  /** pcm_<digits> asks for a PCM header at the rate the digits spell, one channel, 8 bits. */
  lemma PcmPlan(outputFormat: string, digits: string)
    requires outputFormat == "pcm_" + digits && digits != [] && AllDigits(digits)
    ensures HeaderPlan(outputFormat) == Success(Some(HeaderArgs("pcm", DigitsValue(digits), 1, 8)))
    ensures Extension(outputFormat) == "wav"
  {
    forall i | 0 <= i < |digits| ensures digits[i] != '_' {
      assert IsDigit(digits[i]);
    }
    var parts := ["pcm", digits];
    assert Join(parts[1..], '_') == digits;
    assert Join(parts, '_') == outputFormat;
    JoinSplit(parts, '_');
    assert outputFormat[..3] == "pcm";
  }

  /** Every PCM rate, written out in decimal, comes back as the header's sample rate. */
  lemma PcmPlanOfRate(rate: nat)
    ensures HeaderPlan("pcm_" + ToDecimal(rate)) == Success(Some(HeaderArgs("pcm", rate, 1, 8)))
  {
    DigitsValueOfDecimal(rate);
    PcmPlan("pcm_" + ToDecimal(rate), ToDecimal(rate));
  }

  /**
   * The two errors of a 'pcm' format: no '_' at all, or no integer between the
   * first '_' and the next one (or the end).
   */
  lemma PcmPlanErrors(outputFormat: string)
    requires StartsWith(outputFormat, "pcm")
    ensures HeaderPlan(outputFormat) == Failure(NoRateField) <==> '_' !in outputFormat
    ensures HeaderPlan(outputFormat) == Failure(RateNotInteger) <==>
              '_' in outputFormat && ParseInt(Split(outputFormat, '_')[1]).None?
  {
    assert outputFormat[0] == outputFormat[..3][0] == 'p';
    SplitCount(outputFormat, '_');
  }

  /**
   * For the configured formats the plan never fails, a header is added
   * exactly when the batch writes .wav files, and the header asks for a
   * rate below 100000 Hz, one channel and 8 bits.
   */
  lemma ValidFormatsPlan(outputFormat: string)
    requires outputFormat in ValidFormats
    ensures HeaderPlan(outputFormat).Success?
    ensures HeaderPlan(outputFormat).value.Some? <==> Extension(outputFormat) == "wav"
    ensures HeaderPlan(outputFormat).value.Some? ==>
              var a := HeaderPlan(outputFormat).value.value;
              (a.audioFormat == "ulaw" || a.audioFormat == "pcm") &&
              0 <= a.sampleRate < 100000 && a.numChannels == 1 && a.bitsPerSample == 8
  {
    if outputFormat == "mp3_44100" {
      Mp3Format(outputFormat);
    } else if outputFormat == "ulaw_8000" {
      UlawFormat(outputFormat);
    } else if outputFormat == "pcm_16000" {
      PcmFormat(outputFormat, "16000");
    } else if outputFormat == "pcm_22050" {
      PcmFormat(outputFormat, "22050");
    } else if outputFormat == "pcm_24000" {
      PcmFormat(outputFormat, "24000");
    } else if outputFormat == "pcm_44100" {
      PcmFormat(outputFormat, "44100");
    }
  }

  lemma Mp3Format(outputFormat: string)
    requires outputFormat == "mp3_44100"
    ensures HeaderPlan(outputFormat) == Success(None) && Extension(outputFormat) == "mp3"
  {
    assert outputFormat[0] == 'm';
  }

  lemma UlawFormat(outputFormat: string)
    requires outputFormat == "ulaw_8000"
    ensures HeaderPlan(outputFormat) == Success(Some(HeaderArgs("ulaw", 8000, 1, 8)))
    ensures Extension(outputFormat) == "wav"
  {
    assert outputFormat[0] == 'u';
  }

  lemma PcmFormat(outputFormat: string, digits: string)
    requires outputFormat == "pcm_" + digits && AllDigits(digits) && |digits| == 5
    ensures HeaderPlan(outputFormat) == Success(Some(HeaderArgs("pcm", DigitsValue(digits), 1, 8)))
    ensures DigitsValue(digits) < 100000 && Extension(outputFormat) == "wav"
  {
    PcmPlan(outputFormat, digits);
    DigitsValueOfLength(digits);
  }

  /**
   * For the configured formats and any payload below 2^32 - 38 bytes, the
   * bytes to write are the audio, preceded by a header exactly for .wav:
   * ulaw_8000 gets the mu-law header at 8000 Hz, mono, 8 bits, and pcm_<d>
   * the PCM header at rate d, mono, 8 bits, each read back from the bytes.
   */
  lemma ValidFormatsEncode(outputFormat: string, audio: seq<byte>)
    requires outputFormat in ValidFormats && |audio| < 0x1_0000_0000 - 38
    ensures Encode(outputFormat, audio).Success?
    ensures var out := Encode(outputFormat, audio).value;
            (Extension(outputFormat) == "mp3" ==> out == audio) &&
            (Extension(outputFormat) == "wav" ==> |out| > |audio|)
    ensures outputFormat == "ulaw_8000" ==>
              var out := Encode(outputFormat, audio).value;
              Parse(MuLaw, out) == Some(WavHeader(MuLaw, |out| - 8, 18, 7, 1, 8000, 8000, 1, 8, |audio|))
    ensures StartsWith(outputFormat, "pcm_") ==>
              var out, d := Encode(outputFormat, audio).value, outputFormat[4..];
              AllDigits(d) &&
              Parse(Pcm, out) == Some(WavHeader(Pcm, |out| - 8, 16, 1, 1, DigitsValue(d), DigitsValue(d), 1, 8, |audio|))
  {
    if outputFormat == "ulaw_8000" {
      UlawEncode(outputFormat, audio);
    } else if outputFormat == "mp3_44100" {
      Mp3Format(outputFormat);
    } else if outputFormat == "pcm_16000" {
      FivePcmEncode(outputFormat, "16000", audio);
    } else if outputFormat == "pcm_22050" {
      FivePcmEncode(outputFormat, "22050", audio);
    } else if outputFormat == "pcm_24000" {
      FivePcmEncode(outputFormat, "24000", audio);
    } else {
      FivePcmEncode(outputFormat, "44100", audio);
    }
  }

  /** A five-digit PCM format, in the form the configured formats are stated in. */
  lemma FivePcmEncode(outputFormat: string, digits: string, audio: seq<byte>)
    requires outputFormat == "pcm_" + digits && |digits| == 5 && AllDigits(digits)
    requires |audio| < 0x1_0000_0000 - 38
    ensures Encode(outputFormat, audio).Success? && Extension(outputFormat) == "wav"
    ensures var out := Encode(outputFormat, audio).value;
            |out| > |audio| && StartsWith(outputFormat, "pcm_") && outputFormat[4..] == digits &&
            Parse(Pcm, out) == Some(WavHeader(Pcm, |out| - 8, 16, 1, 1, DigitsValue(digits), DigitsValue(digits),
                                              1, 8, |audio|))
  {
    PcmFormat(outputFormat, digits);
    PcmEncode(outputFormat, digits, audio);
    assert outputFormat[..4] == "pcm_";
  }

  /** ulaw_8000 writes add_wav_header(audio_data) with its defaults in front of the audio. */
  lemma UlawEncode(outputFormat: string, audio: seq<byte>)
    requires outputFormat == "ulaw_8000" && |audio| < 0x1_0000_0000 - 38
    ensures Encode(outputFormat, audio).Success? && Extension(outputFormat) == "wav"
    ensures !StartsWith(outputFormat, "pcm_")
    ensures var out := Encode(outputFormat, audio).value;
            |out| == 46 + |audio| && out[46..] == audio &&
            Parse(MuLaw, out) == Some(WavHeader(MuLaw, |out| - 8, 18, 7, 1, 8000, 8000, 1, 8, |audio|))
  {
    assert outputFormat[0] == 'u';
    UlawFormat(outputFormat);
    AddWavHeaderSucceeds(audio, "ulaw", 8000, 1, 8);
    AddWavHeaderFields(audio, "ulaw", 8000, 1, 8);
  }

  /** pcm_<digits> writes the PCM header at the rate the digits spell, mono, 8 bits, in front of the audio. */
  lemma PcmEncode(outputFormat: string, digits: string, audio: seq<byte>)
    requires outputFormat == "pcm_" + digits && digits != [] && AllDigits(digits)
    requires DigitsValue(digits) < 0x1_0000_0000 && |audio| < 0x1_0000_0000 - 36
    ensures Encode(outputFormat, audio).Success?
    ensures var out, rate := Encode(outputFormat, audio).value, DigitsValue(digits);
            |out| == 44 + |audio| && out[44..] == audio &&
            Parse(Pcm, out) == Some(WavHeader(Pcm, |out| - 8, 16, 1, 1, rate, rate, 1, 8, |audio|))
  {
    var rate := DigitsValue(digits);
    PcmPlan(outputFormat, digits);
    AddWavHeaderSucceeds(audio, "pcm", rate, 1, 8);
    AddWavHeaderFields(audio, "pcm", rate, 1, 8);
    assert rate * 1 * 8 / 8 == rate && 1 * 8 / 8 == 1;
  }

  lemma {:induction false} DigitsValueOfLength(digits: string)
    requires AllDigits(digits)
    ensures DigitsValue(digits) < Pow10(|digits|)
  {
    if digits != [] {
      DigitsValueOfLength(digits[..|digits| - 1]);
    }
  }
}
