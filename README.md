# ElevenLabs TTS batch processor — verified model

This project models, in Dafny, the logic of a small text-to-speech batch
tool (`main.py`). The tool reads lines from `input.txt`, sends each
non-blank line to a speech-synthesis service and stores every result as
`output/output_NNNN.<ext>`. The index `NNNN` continues after the highest
index already in the output directory. For the `ulaw_8000` and `pcm_*`
output formats it puts a RIFF/WAVE header in front of the raw samples
before writing.

The model has these modules:

- `Bytes`: octets and the little-endian `'H'`/`'I'` fields that `struct.pack('<…')` writes.
- `Decimal`: `int(s)` on ASCII digits, `str(n)` and the `f'{n:04}'` zero padding.
- `Wave`: `add_wav_header`. It builds the header as a `WavHeader` value. It serializes the header in the
  `<4sI4s4sIHHIIHH4sI` layout for PCM (format code 1, 16-byte `fmt ` chunk) and the
  `<4sI4s4sIHHIIHHH4sI` layout for μ-law (format code 7, 18-byte `fmt ` chunk ending in a zero `cbSize`).
  It also has a parser that reads a header back.
- `OutputIndex`: the `output_NNNN.ext` names and `get_next_output_number`. This is a method with a loop over
  the directory listing, proved against the specification function `MaxMatched`.
- `Formats`: the output-format dispatch. It decides whether a header is added, with which sample rate, and
  which extension the batch writes.
- `Delivery`: the retry loop of `text_to_speech_file`. It is a method with a loop over an abstract sequence
  of attempt results, proved against the function `DeliveryOutcome`.
- `Batch`: `main()`. It covers stripping and filtering the input lines, the numbering loop (a method with a
  loop), and which files a run leaves behind.

## Model

| member | source | states |
|---|---|---|
| Wave.AddWavHeader | main.py:71-125 | the call fails with the unsupported-format error exactly when `audio_format` is neither `'ulaw'` nor `'pcm'` |
| Wave.AddWavHeaderSucceeds | main.py:78-123 | for `'ulaw'`/`'pcm'`, the call succeeds exactly when every packed field fits its `H`/`I` width: rate, channels, bits (forced to 8 for μ-law), byte_rate, block_align, and the payload length below 2^32 − 36 (PCM) or − 38 (μ-law); any failure is the struct error |
| Wave.AddWavHeaderFields | main.py:78-125 | on success the output is 44 (PCM) or 46 (μ-law) bytes longer than the input and ends with the unchanged input; the header read back has chunk_size = output length − 8, subchunk1_size 16/18, format code 1/7, byte_rate = rate·channels·bits div 8, block_align = channels·bits div 8, bits forced to 8 for μ-law, and data size = payload length |
| Wave.AddWavHeaderBytes | main.py:72-123 | on success `RIFF`, `WAVE` and `fmt ` sit at offsets 0, 8 and 12; `data` sits at 36 (PCM) or 38 (μ-law); the payload length is in the last four header bytes; chunk_size is at 4, subchunk1_size at 16, the format code at 20, byte_rate at 28, block_align at 32; for μ-law, bits 8 is followed by a zero 16-bit cbSize |
| Wave.Serialize | main.py:94-123 | the packed header is 12 + (8 + subchunk1_size) + 8 bytes: 44 for PCM, 46 for μ-law |
| Wave.SerializeOffsets | main.py:94-123 | each field of the packed header is at the offset that its pack format gives it, little-endian |
| Wave.ParseSerialize | main.py:94-125 | reading a packed header back from the front of header + payload gives the same header: the serialization loses nothing |
| Wave.PcmExample | main.py:81-107 | PCM at 16000 Hz, mono, 16 bits, empty payload: 44 bytes, format code 1, byte_rate 32000, block_align 2 |
| Wave.MuLawExample | main.py:78-123 | μ-law at 8000 Hz with 100 samples: 146 bytes, subchunk1_size 18, bits 8, zero cbSize, data size 100 |
| Bytes.FromLEOfLE | main.py:94 | decoding an n-byte little-endian field gives back every value below 256^n |
| Bytes.LEOfFromLE | main.py:94 | encoding a decoded byte string gives the bytes back |
| OutputIndex.GetNextOutputNumber | main.py:59-68 | for a given pattern (the source's `MatchIndex` or the corrected `MatchIndexWide`), the result is one more than the largest index among the names the pattern matches (0 when none match); it is greater than every matched index, and it is 1 or one more than an index that some listed name carries |
| OutputIndex.MaxMatchedIsUpperBound | main.py:61-67 | no matched index exceeds the scan's maximum |
| OutputIndex.MaxMatchedIsAttained | main.py:61-67 | a non-zero maximum is the index of some listed name |
| OutputIndex.MaxMatchedIgnoresOrder | main.py:62 | the result does not depend on the order in which the directory lists the names |
| OutputIndex.MatchIndexIsOutputName | main.py:60-65 | with `\d` read as an ASCII digit, a matched name starts with exactly the name the batch would write for that index (`output_` + four digits + `.mp3`/`.wav`); its index is below 10000 and any text may follow |
| OutputIndex.MatchIndexSplit | main.py:60-65 | `output_` + digits + `.` + ext + anything is matched with the digits' value when there are exactly four digits, and not matched when there are more |
| OutputIndex.MatchIndexOfOutputName | main.py:60-65 | a name the batch writes, with anything appended, is matched with its own index exactly when that index is below 10000 |
| OutputIndex.OutputNameInjective | main.py:190 | two names with the same extension are equal only for the same index |
| OutputIndex.NextOutputNumberIsFreshBelow10000 | main.py:59-68 | every index above the scan's maximum and below 10000 names a file not yet in the directory |
| OutputIndex.NextOutputNumberReusesName | main.py:59-68 | with `output_9999` and `output_10000` present, the next run starts again at 10000, a name already in the directory (see Findings) |
| OutputIndex.MatchIndexWideExtends | main.py:60 | the corrected pattern (four or more digits) accepts every name the original accepts, with the same index |
| OutputIndex.MatchIndexWideOfOutputName | main.py:190 | the corrected pattern reads every index the writer produces, at any width, from the name |
| OutputIndex.CorrectedNextOutputNumberIsFresh | main.py:59-68 | with the corrected pattern, no index from the next number upward names a file already in the directory |
| Decimal.Pad4Value | main.py:190 | `int(f'{n:04}') == n`: the padded text is all digits and reads back as n |
| Decimal.Pad4Length | main.py:190 | `f'{n:04}'` has at least four characters, and exactly four when n < 10000 |
| Decimal.ZeroPadSpec | main.py:190 | the padded text ends with the unpadded digits and has only `'0'` before them |
| Decimal.DigitsValueOfDecimal | main.py:65 | `int(str(n)) == n` |
| Decimal.DigitsValueSkipsZeros | main.py:65 | leading zeros do not change the value `int()` reads |
| Decimal.ZeroPadOfDigitsValue | main.py:60-65 | a matched group of digits, padded back to its own width, is the group again |
| Formats.Encode | main.py:147-151 | the bytes to write end with the audio. A plan error is passed on. A format with no header writes the audio as fetched. A format with a header writes a longer output, or fails only with the struct error |
| Formats.Extension | main.py:187 | the extension is `mp3` exactly for `mp3_44100`, otherwise `wav` |
| Formats.PcmPlan | main.py:149-151 | `pcm_<digits>` asks for a `'pcm'` header at the rate that the digits spell, one channel and 8 bits, and is written as `.wav` |
| Formats.PcmPlanOfRate | main.py:149-151 | every rate written in decimal after `pcm_` comes back as the header's sample rate |
| Formats.PcmPlanErrors | main.py:149-150 | a `pcm…` format fails with IndexError exactly when it has no `_`, and with ValueError exactly when the second piece of `split('_')`, the text between the first and the second `_`, is not a non-empty string of ASCII digits |
| Formats.UlawFormat | main.py:147-148 | `ulaw_8000` takes add_wav_header's defaults (`'ulaw'`, 8000 Hz, mono, 8 bits) and is written as `.wav` |
| Formats.Mp3Format | main.py:147-151 | `mp3_44100` is written as fetched, as `.mp3` |
| Formats.PcmFormat | main.py:149-151 | a five-digit PCM format asks for its rate, which is below 100000 |
| Formats.ValidFormatsPlan | main.py:46-53 | for each of the six accepted formats the plan succeeds, a header is added exactly when the extension is `wav`, and the header asks for `'ulaw'`/`'pcm'`, a rate below 100000, one channel and 8 bits |
| Formats.ValidFormatsEncode | main.py:145-151 | for an accepted format and a payload below 2^32 − 38 bytes, preparing the bytes succeeds; an `.mp3` file gets the audio unchanged; for `ulaw_8000` the bytes read back as a µ-law header (format code 7, fmt size 18, 8000 Hz, byte rate 8000, mono, 8 bits, data size the audio length, RIFF size the file length less 8); for `pcm_<d>` they read back as a PCM header (code 1, fmt size 16, sample rate and byte rate the number `d` spells, mono, 8 bits) |
| Formats.UlawEncode | main.py:147-148 | for a payload below 2^32 − 38 bytes, `ulaw_8000` puts a 46-byte header in front of the audio, and it reads back as add_wav_header's µ-law defaults with the sizes of the file and the audio |
| Formats.PcmEncode | main.py:149-151 | `pcm_<digits>` with a rate below 2^32 and a payload below 2^32 − 36 bytes puts a 44-byte header in front of the audio, and it reads back as PCM, mono, 8 bits, at the rate the digits spell |
| Formats.FivePcmEncode | main.py:149-151 | a five-digit PCM format is written as `.wav` with the PCM header at its rate in front of the audio |
| Formats.SplitJoin | main.py:150 | joining the pieces of `str.split` with the separator gives the string back |
| Formats.JoinSplit | main.py:150 | splitting a join of separator-free pieces gives the pieces back |
| Formats.SplitCount | main.py:150 | `split('_')` gives a second piece exactly when `_` occurs |
| Delivery.TextToSpeechFile | main.py:128-163 | the loop's outcome, the files it writes and the pauses it takes are those of `DeliveryOutcome` and `Sleeps`: at most one write, and only on success |
| Delivery.FirstStreamedSpec | main.py:129-157 | the attempt that decides the result streams, and every earlier one failed; no attempt decides only when all fail |
| Delivery.DeliveryUsesFirstStream | main.py:129-157 | a saved or raised result comes from the first attempt that streamed, within the retry budget, after failures only |
| Delivery.DeliveryExhausted | main.py:159-164 | the retries run out exactly when there is at least one retry and every attempt fails |
| Delivery.DeliverySavesEncodedAudio | main.py:145-154 | the saved content is the streamed audio, with empty chunks dropped, after the format's header step; it ends with that audio |
| Delivery.JoinChunksIsConcat | main.py:145 | skipping empty chunks does not change the joined audio |
| Delivery.TwoTimeoutsThenStream | main.py:128-163 | under the default three retries, for any format that accepts the payload, two failures then a stream save the prepared bytes of the joined chunks on the third attempt, after 2 × 5 s of pauses |
| Delivery.ThreeTimeouts | main.py:159-164 | three failures under the default retries end with the failed last attempt, save nothing and pause twice |
| Batch.TrimStartSpec | main.py:185 | `lstrip` removes the longest whitespace prefix |
| Batch.TrimEndSpec | main.py:185 | `rstrip` removes the longest whitespace suffix |
| Batch.StripSlice | main.py:185 | `strip` keeps the text between the leading and trailing whitespace |
| Batch.StripBlank | main.py:185 | a line is dropped exactly when it is all whitespace |
| Batch.StripIdempotent | main.py:185 | stripping twice is stripping once |
| Batch.NonBlankLinesStripped | main.py:185 | every kept line is non-empty and already stripped |
| Batch.NonBlankLinesAppend | main.py:185 | the lines of two consecutive parts of the file are the lines of each, in order |
| Batch.OutputPathInjective | main.py:190 | different indices give different paths |
| Batch.BatchPathsAt | main.py:189-192 | the k-th line of the run gets `output/output_{start+k:04}.ext` |
| Batch.BatchPathsDistinct | main.py:189-192 | no two lines of a run get the same path |
| Batch.BatchOutcomesAt | main.py:189-191 | line k's result is that line's delivery |
| Batch.WrittenContents | main.py:153-154 | with distinct paths, the files left behind are exactly the paths whose line was saved, each holding its own content |
| Batch.BatchWrites | main.py:189-192 | a run leaves exactly one file per saved line, under that line's path, holding that line's content |
| Batch.ConvertLines | main.py:189-192 | the loop gives each line the next consecutive index and that line's delivery outcome. It stops after the first outcome that raises, and it reaches every line when none does |
| Batch.ConvertLine | main.py:190-191 | one pass extends the paths and outcomes by the next line's path and delivery |
| Batch.ConvertStep | main.py:189-192 | the loop's state after one more line is the state for one more line |
| Batch.BatchConvert | main.py:179-192 | main(): the indices start at one more than the scan of the existing names with the given pattern (`MatchIndex` as written, `MatchIndexWide` corrected), and the non-blank stripped lines are converted in order until the first outcome that stops the run |
| Batch.BatchPathsFresh | main.py:182-190 | numbered from the corrected scan, every path of a run is `output/` + the name for its index, and no such name is already in the directory |

## Left out

- Loading `.env`, reading environment variables, the import-time validation of the configuration and client
  construction (main.py:12-57) are not modelled. `ValidFormats` only names the six accepted formats.
- The synthesis service call and its streaming (main.py:132-144) are not modelled. Attempt `j` is given as
  `respond(j)`: either the streamed chunks or a transient failure (`ReadTimeout` / `RequestException`).
- `time.sleep` is counted (`sleeps`), not performed. Log output from `print` is left out.
- File writes, `os.makedirs`, `os.listdir` and reading `input.txt` are not modelled. The listing and the file
  lines are parameters. What a run leaves on disk is the function `Written`, stated by `BatchWrites`; it is not
  threaded through the loop.
- The branch after the last failed attempt (main.py:164) has no body in the source. `TextToSpeechFile` then
  returns `LastAttemptFailed` and says nothing more. Whether that ends the batch is the parameter
  `lastFailureRaises`.
- Delivery.TextToSpeechFile: errors other than the caught ones, raised by the service call itself, are not
  modelled. Only errors from the format step (`IndexError`, `ValueError`, `struct.error`) end the loop with
  `Raised`.
- `list_voices` and argument parsing (main.py:165-177) are not modelled, nor the voice-setting floats
  (main.py:37-41), which are passed to the service unchanged.
- OutputIndex.MatchIndex: `\d` in the compiled pattern and `int()` of the matched group are modelled on the ASCII
  digits `0`-`9` only. Python's `\d` on a str pattern also matches the other Unicode decimal digits (category
  Nd), and `int()` reads them, so a listed name such as `output_١٢٣٤.wav` counts as index 1234 in the source but
  is not matched here. The batch itself only ever writes ASCII digits.
- Formats.PcmPlanErrors: the rate is read with `ParseInt`, which accepts only a non-empty string of ASCII digits.
  Python's `int()` also accepts a sign, surrounding whitespace, underscores between digits and non-ASCII
  digits (so `pcm_+16000` would get rate 16000, and `pcm_-16000` would fail in `struct.pack`). The check at
  main.py:54-55 only lets the six listed formats through, none of which has such a rate. `ParseInt` also has no
  length limit, where recent Python versions make `int()` raise ValueError on strings of more than 4300 digits.
- Formats.Encode: its own contract says only that the output ends with the audio and is longer when a header
  is added. What the header holds is stated for the accepted formats by `ValidFormatsEncode`, `UlawEncode` and
  `PcmEncode`, which read it back with `Wave.Parse`.
- OutputPath: `os.path.join` is modelled with the POSIX separator `/`.
- Batch.IsSpace: `str.strip` is modelled with a fixed table of the characters Python treats as whitespace.
  Unicode data beyond that table is not modelled.

## Findings

| source | as written | input that shows it | evidently intended | confidence | as-written member | corrected member |
|---|---|---|---|---|---|---|
| main.py:60 with main.py:190 | the scan matches exactly four digits (`\d{4}`), but the writer pads to at least four (`{n:04}`), so indices from 10000 up are invisible to the scan | a directory holding `output_9999.wav` and `output_10000.wav`: the next run starts at 10000 and overwrites `output_10000.wav` | a pattern of four or more digits, so that the next index is above every index written | not executed | OutputIndex.NextOutputNumberReusesName | OutputIndex.CorrectedNextOutputNumberIsFresh |
