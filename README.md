# Multi-sentence speech synthesis: sentence splitting and waveform assembly

This project is a Dafny model of the two precisely stated parts of a small
text-to-speech HTTP service built on a speech engine.

- **The sentence splitter** (`split_sentence_for_tts`). Text is cut into
  paragraphs at line feeds and blank paragraphs are skipped. Each paragraph is
  stripped and split with the regular expression
  `(?<![「『])([。！？]+)(?![」』])`. Each fragment is then glued back to the
  run of marks that follows it.
- **The two synthesis endpoints** (`api/multi_sentence_tts.py` and its older
  twin `api/multi_tts.py`). Each sentence of a request gets a running volume,
  pitch, speed and speaker, inherited field by field through Python's `or`.
  The engine's query is tuned with those values. The WAV chunks the engine
  returns are written one after another, with one silence buffer
  (`build_silence`) between them. The newer endpoint also removes the engine's
  leading and trailing pauses and logs the start and end of every sentence
  (`wave_pos`).

Modules, leaves first:

| file | module | what it holds |
|---|---|---|
| `wrappers.dfy` | `Wrappers` | `Option`, `Result` |
| `py_str.dfy` | `PyStr` | Python's `str.isspace`, `strip`, `split("\n")`, `"".join` |
| `split_pattern.dfy` | `SplitPattern` | the pattern as a scanner, and `re.split` with it |
| `sentence_splitter.dfy` | `SentenceSplitter` | the splitter as a method, and its properties |
| `voices.dfy` | `Voices` | the per-sentence overrides and the `or`-based inheritance |
| `waveform.dfy` | `Waveform` | WAV parameters, `build_silence`, the written byte stream |
| `requests.dfy` | `Requests` | request body, the engine's query object, error cases |
| `multi_sentence_tts.dfy` | `MultiSentenceTts` | the newer endpoint |
| `multi_tts.dfy` | `MultiTts` | the older endpoint |
| `endpoints.dfy` | `Endpoints` | how the two endpoints relate |

How the model is built:

- **The regular expression** is a declarative predicate, `IsMatch`. It holds
  of the spans the pattern accepts: one or more marks, no opening quote just
  before, and no closing quote just after. Python's engine reports, at the
  leftmost position where some span is accepted, the longest accepted span.
  The repetition is greedy and gives back one mark at a time until the
  lookahead holds. The scanner `MatchAt`/`FindMatch`/`MatchSpans` is proved to
  report exactly those spans, and `ScanIsUnique` shows no other list of spans
  fits. So `"A。！」"` splits into `"A"`, `"。"` and `"！」"`, giving the
  sentences `"A。"` and `"！」"`.
- **Whitespace** is Python's `str.isspace` set of characters, written out.
- **The loops** of the source are methods with loops:
  - `SplitSentenceForTts` walks the paragraphs and pops parts.
  - `Synthesize` (one per endpoint) updates the running variables, the lazily
    built silence, the output buffer and `wave_pos`.

  Each method is proved equal to a specification function. The properties are
  proved about those functions.
- **The engine** is two function parameters: `audioQuery(text, speaker)`
  returns the query object, and `synthesize(speaker, query)` returns one WAV
  chunk. A chunk is its parameters (channels, sample width, frame rate), its
  frame count and its frame bytes.
- **Numbers.** Durations and positions are exact `real`s. Python's `int(x)` is
  truncation toward zero (`Trunc`). The default speaker from the configuration
  is a parameter.

Behaviour of the code worth knowing:

- A paragraph that is only `"。"` yields the sentence `"。"`. `re.split` gives
  `["", "。", ""]`, and the popping loop glues the empty fragment to the mark
  (split_sentence_for_tts.py:18-27, `LoneMark`).
- An override of `0.0` or `""` counts as omitted, because `sentence.volume or
  volume` falls back on a falsy value (api/multi_sentence_tts.py:111-114,
  `FalsyIsOmitted`, `VoicesIgnoreFalsy`).
- Nothing compares the formats of the chunks. The writer's parameters are
  set from the first chunk only, and later chunks are written under them
  whatever their own are (api/multi_tts.py:86-100,
  `MultiTts.AssembleFailures`).
- The silence has `int(framerate * duration)` frames, which truncates rather
  than rounding to nearest (api/multi_sentence_tts.py:29,
  `Waveform.SilenceSeconds`).
- The newer endpoint computes `wave_pos`, the start and end of every
  sentence, but only logs it (api/multi_sentence_tts.py:147). The model
  surfaces that trace as the `timings` field of its result so that it can be
  stated. It is not part of the HTTP response.

## Model

| member | source | states |
|---|---|---|
| `PyStr.Strip` | split_sentence_for_tts.py:11 | `strip()` leaves a string that is empty or starts and ends with non-whitespace; it is empty exactly when the input is all whitespace |
| `PyStr.StripIsSlice` | split_sentence_for_tts.py:15 | the stripped paragraph is the slice of the paragraph between its whitespace ends, and everything cut off is whitespace |
| `PyStr.SplitLines` | split_sentence_for_tts.py:6 | `split("\n")` gives at least one piece and no piece holds a line feed |
| `PyStr.JoinSplitRoundTrip` | split_sentence_for_tts.py:6 | joining the pieces with line feeds gives back the text |
| `PyStr.SplitJoinRoundTrip` | split_sentence_for_tts.py:6 | splitting text joined from line-feed-free pieces gives back the pieces |
| `SplitPattern.MatchAt` | split_sentence_for_tts.py:15 | at one position the engine finds the longest accepted run (lookbehind, greedy run, one mark given back before a closing quote), or reports that no span starting there is accepted |
| `SplitPattern.FindMatch` | split_sentence_for_tts.py:15 | the search finds the leftmost position with an accepted span and its longest span, or proves that no later position has one |
| `SplitPattern.MatchSpans` | split_sentence_for_tts.py:15 | the spans reported are the leftmost-longest scan of the whole paragraph, resumed after each match |
| `SplitPattern.ScanIsUnique` | split_sentence_for_tts.py:15 | only one list of spans is a leftmost-longest scan, so the regex's split points are determined |
| `SplitPattern.RegexSplit` | split_sentence_for_tts.py:15 | `re.split` with the capturing group gives an odd number of parts, their concatenation is the paragraph, and every odd-numbered part is a non-empty run of marks |
| `SplitPattern.CutSeparator` | split_sentence_for_tts.py:15 | part `2k+1` of the split is exactly the text of the `k`th match |
| `SplitPattern.CutFragment` | split_sentence_for_tts.py:15 | part `2k` of the split is exactly the text between the previous match (or the start) and the `k`th match |
| `SplitPattern.SplitPointsAvoidQuotes` | split_sentence_for_tts.py:15 | a run that is split on is never right after `「`/`『` and never right before `」`/`』` |
| `SplitPattern.RunsKeptWhole` | split_sentence_for_tts.py:15 | a split point falls inside a run of marks only where a quote forces a single mark to be left out, so `"？！"` is never split apart otherwise |
| `SplitPattern.CutLast` | split_sentence_for_tts.py:15 | the last part is the suffix after the last match, and nothing in it matches |
| `SentenceSplitter.SplitSentences` | split_sentence_for_tts.py:4-29 | the reference definition of the splitter: the sentences of every paragraph of `split("\n")`, in order; its meaning is given by `SplitSentenceForTts`, `SentenceOrigin`, `SentencesTrimmed`, `SentencesHaveNoLineBreak` and `LineBreakSeparates` |
| `SentenceSplitter.ParagraphSentences` | split_sentence_for_tts.py:11-27 | the reference definition for one paragraph: nothing when it is blank, otherwise `Recombine` of `re.split` of the stripped paragraph; its meaning is given by `ParagraphInOrder`, `ParagraphReassembled`, `ParagraphSentencesLack` and `MarkEndedParagraphHasNoTail` |
| `SentenceSplitter.Recombine` | split_sentence_for_tts.py:18-27 | the reference definition of the popping loop: two parts become one stripped sentence, and a last lone part is kept only when it is not blank; its meaning is given by `RecombineTrimmed`, `RecombineCount` and `RecombineInOrder` |
| `SentenceSplitter.SplitSentenceForTts` | split_sentence_for_tts.py:4-29 | the paragraph loop and the popping loop return the sentences `SplitSentences` defines, each non-empty, without whitespace at its ends and without a line feed |
| `SentenceSplitter.RecombineTrimmed` | split_sentence_for_tts.py:18-27 | every recombined sentence is non-empty and has no whitespace at its ends, because its marks are non-empty |
| `SentenceSplitter.RecombineCount` | split_sentence_for_tts.py:18-27 | one sentence per split point, plus one for the last fragment exactly when it is not blank |
| `SentenceSplitter.RecombineInOrder` | split_sentence_for_tts.py:18-27 | the sentences, concatenated, are the parts with their edge whitespace removed, in order |
| `SentenceSplitter.RecombineAt` | split_sentence_for_tts.py:18-27 | sentence `k` of the popping loop is part `2k` stripped followed by part `2k+1` stripped |
| `SentenceSplitter.ParagraphSentenceAt` | split_sentence_for_tts.py:15-27 | sentence `k` of a paragraph is the stripped fragment between the previous match and the `k`th, with the `k`th match's whole run of marks attached to it |
| `SentenceSplitter.ParagraphInOrder` | split_sentence_for_tts.py:15-27 | a paragraph's sentences, concatenated, are the stripped paragraph with the whitespace at fragment edges removed |
| `SentenceSplitter.ParagraphReassembled` | split_sentence_for_tts.py:15-27 | a paragraph without whitespace is reproduced exactly by its sentences |
| `SentenceSplitter.ParagraphSentencesLack` | split_sentence_for_tts.py:15-27 | a character absent from a paragraph is absent from all of its sentences |
| `SentenceSplitter.MarkEndedParagraphHasNoTail` | split_sentence_for_tts.py:20-24 | a paragraph ending in a mark, unless that mark is a single mark right after `「`/`『`, gives exactly one sentence per split point, with no trailing empty sentence |
| `SentenceSplitter.SentenceOrigin` | split_sentence_for_tts.py:10-27 | every output sentence is a sentence of one of the paragraphs |
| `SentenceSplitter.SentencesHaveNoLineBreak` | split_sentence_for_tts.py:6 | no output sentence contains a line feed |
| `SentenceSplitter.SentencesTrimmed` | split_sentence_for_tts.py:22-27 | every output sentence is non-empty and has no leading or trailing whitespace |
| `SentenceSplitter.BlankTextYieldsNothing` | split_sentence_for_tts.py:10-12 | empty or whitespace-only text gives no sentences |
| `SentenceSplitter.BlankParagraphsYieldNothing` | split_sentence_for_tts.py:10-12 | paragraphs that are all whitespace give no sentences |
| `SentenceSplitter.LineBreakSeparates` | split_sentence_for_tts.py:6-10 | the sentences of `a + "\n" + b` are those of `a` followed by those of `b` |
| `SentenceSplitter.BlankLineIgnored` | split_sentence_for_tts.py:10-12 | a blank line between two texts contributes nothing |
| `SentenceSplitter.TrailingSpaceIgnored` | split_sentence_for_tts.py:11-15 | whitespace at the end of the text, such as a `\r`, changes no sentence |
| `SentenceSplitter.CrLfIsLineBreak` | split_sentence_for_tts.py:6-15 | a CR LF line break splits exactly as a bare line feed does |
| `SentenceSplitter.QuoteAfterRun` | split_sentence_for_tts.py:15-27 | for any first character `a` that is not whitespace, a mark or an opening quote, `a。！」` gives `[a。, ！」]`: the closing quote stays with the mark before it |
| `SentenceSplitter.LoneMark` | split_sentence_for_tts.py:18-27 | the paragraph `"。"` gives `["。"]` |
| `Voices.Or` | api/multi_sentence_tts.py:111-114 | the reference definition of `override or current`, with `0.0` and `""` falsy; its meaning is given by `CarriedIsLatest` and `FalsyIsOmitted` |
| `Voices.Inherit` | api/multi_sentence_tts.py:111-114 | the reference definition of one step of the running variables, one `or` per field; its meaning is given by `Voices.Or`, `CurrentPerField`, `SilentOverridesInherit` and `FalsyIsOmitted` |
| `Voices.Current` | api/multi_sentence_tts.py:109-114 | the reference definition of the running variables after `i` sentences; its meaning is given by `CarriedIsLatest` and the four `*IsLatest` lemmas |
| `Voices.VoiceOf` | api/multi_sentence_tts.py:104-114 | the reference definition of the voice sentence `i` is synthesized with, after seeding from sentence 0; its meaning is given by `VoiceOfIsReplay`, `SeedingIsHarmless` and `VoicesIgnoreFalsy` |
| `Voices.SeedingIsHarmless` | api/multi_sentence_tts.py:104-114 | seeding the running variables from sentence 0 and then applying sentence 0 again gives the same values as starting from the defaults |
| `Voices.VoiceOfIsReplay` | api/multi_sentence_tts.py:104-114 | sentence `i` is voiced with the defaults updated by sentences `0..i` in order; sentence 0 with the defaults updated by itself |
| `Voices.CarriedIsLatest` | api/multi_sentence_tts.py:111-114 | a running variable holds the latest truthy override so far, or its start value when there is none |
| `Voices.CurrentPerField` | api/multi_sentence_tts.py:111-114 | volume, pitch, speed and speaker are inherited independently of each other |
| `Voices.VolumeIsLatest` | api/multi_sentence_tts.py:104-111 | sentence `i`'s volume is the latest truthy volume among sentences `0..i`, or the default |
| `Voices.PitchIsLatest` | api/multi_sentence_tts.py:105-112 | sentence `i`'s pitch is the latest truthy pitch among sentences `0..i`, or the default |
| `Voices.SpeedIsLatest` | api/multi_sentence_tts.py:106-113 | sentence `i`'s speed is the latest truthy speed among sentences `0..i`, or the default |
| `Voices.SpeakerIsLatest` | api/multi_sentence_tts.py:107-114 | sentence `i`'s speaker is the latest non-empty speaker among sentences `0..i`, or the configured one |
| `Voices.SilentOverridesInherit` | api/multi_sentence_tts.py:111-114 | a sentence with no truthy field is voiced exactly like its predecessor |
| `Voices.FalsyIsOmitted` | api/multi_sentence_tts.py:104-114 | an explicit `0.0` volume, pitch or speed, or an empty speaker, cannot be told apart from an omitted field |
| `Voices.VoicesIgnoreFalsy` | api/multi_sentence_tts.py:104-114 | requests that differ only in falsy versus omitted fields give every sentence the same voice |
| `Waveform.Trunc` | api/multi_sentence_tts.py:29 | `int(x)` truncates toward zero: the greatest integer not above a non-negative `x`, the least not below a negative one |
| `Waveform.BuildSilence` | api/multi_sentence_tts.py:26-30 | the silence is all zero bytes, `int(framerate*duration) * n_channels * sampwidth` of them, none when that frame count is not positive |
| `Waveform.SilenceSeconds` | api/multi_sentence_tts.py:26-30 | the silence is whole frames, and its frame count `n` satisfies `n <= framerate*duration < n+1` |
| `Waveform.NoSilenceForNonPositive` | api/multi_tts.py:22-26 | a zero or negative duration gives no silence |
| `Waveform.Stitch` | api/multi_sentence_tts.py:141-149 | the reference definition of the written stream: the chunks' frames with the silence before every chunk but the first; its meaning is given by `StitchLength`, `StitchChunkAt` and `StitchGapBefore` |
| `Waveform.WriterAccepts` | api/multi_sentence_tts.py:134-136 | the parameters `setparams` takes: a sample width of at most 4 bytes and a positive frame rate; how they decide the response is given by `MultiSentenceTts.AssembleFailures` and `MultiTts.AssembleFailures` |
| `Waveform.StitchLength` | api/multi_sentence_tts.py:141-150 | the written stream is `Σ|fi| + (n-1)·|silence|` bytes long |
| `Waveform.StitchChunkAt` | api/multi_sentence_tts.py:141-150 | chunk `i`'s frames sit unchanged at `Σ_{j<i}|fj| + i·|silence|`; chunk 0 at the very start |
| `Waveform.StitchGapBefore` | api/multi_sentence_tts.py:141-145 | every chunk but the first is immediately preceded by the silence |
| `MultiSentenceTts.Defaults` | api/multi_sentence_tts.py:20-23 | the reference definition of the values in force before the first sentence; how they reach the engine is given by `DefaultsReachQuery` |
| `MultiSentenceTts.NewRequest` | api/multi_sentence_tts.py:60-75 | the reference definition of a request that leaves `format` and `silence_duration` out; what it is answered with is given by `NewRequestDefaults` |
| `MultiSentenceTts.DefaultsReachQuery` | api/multi_sentence_tts.py:104-127 | a field that no sentence up to `i` sets to a truthy value reaches sentence `i`'s query at its default: `volumeScale` 0.5, `pitchScale` 0, `speedScale` 1, and the configured speaker |
| `MultiSentenceTts.NewRequestDefaults` | api/multi_sentence_tts.py:60-75 | a request without `format` and `silence_duration` is answered in MP3, each chunk but the first preceded by the silence for 0.2 seconds and logged as starting 0.2 seconds after the previous sentence ends |
| `MultiSentenceTts.TunedQuery` | api/multi_sentence_tts.py:121-126 | the reference definition of the query after the five assignments; its meaning is given by `TunedQueryFields`, and `TuneQuery` is proved to produce it |
| `MultiSentenceTts.TunedQueryFields` | api/multi_sentence_tts.py:121-126 | the query gains exactly `volumeScale`, `pitchScale`, `speedScale` set to the voice and both phoneme lengths set to 0; every other key is unchanged |
| `MultiSentenceTts.TuneQuery` | api/multi_sentence_tts.py:120-126 | the five assignments produce that query |
| `MultiSentenceTts.Synthesis` | api/multi_sentence_tts.py:101-153 | the reference definition of the response: `NoSentences` for an empty request, otherwise `Assemble` of the engine's chunks; its meaning is given by `Synthesize`, `EmptyRequestFails` and `ChunkVoice` |
| `MultiSentenceTts.Assemble` | api/multi_sentence_tts.py:131-153 | the reference definition of the writer's result for the engine's chunks; its meaning is given by `AssembleLayout`, `AssembleLength` and `AssembleFailures` |
| `MultiSentenceTts.Timings` | api/multi_sentence_tts.py:97-150 | the reference definition of the `wave_pos` trace, one timing per chunk; its meaning is given by `TimingAt`, `TimingStart` and `TimingsPrefix` |
| `MultiSentenceTts.Synthesize` | api/multi_sentence_tts.py:83-152 | the endpoint's loop returns the response `Synthesis` defines: the error, or the first chunk's parameters and the stitched stream, together with the logged `wave_pos` trace (not part of the HTTP response) |
| `MultiSentenceTts.WriteChunk` | api/multi_sentence_tts.py:131-150 | one chunk keeps the writer's invariant (parameters from the first chunk, cached silence equal to `build_silence`, buffer equal to the stitched stream, `wave_pos` equal to the last end), or fails exactly when the writer refuses the first chunk or the frame rate is zero |
| `MultiSentenceTts.WrittenStep` | api/multi_sentence_tts.py:141-150 | the silence, the frames and the new timing that one more chunk adds, with `wave_pos` advanced over both |
| `MultiSentenceTts.WriteFailed` | api/multi_sentence_tts.py:134-139 | a chunk the writer cannot take ends the request with that error |
| `MultiSentenceTts.Completed` | api/multi_sentence_tts.py:152-153 | the writer's state after every chunk is the response |
| `MultiSentenceTts.EmptyRequestFails` | api/multi_sentence_tts.py:104 | the request fails with `NoSentences` exactly when it has no sentences |
| `MultiSentenceTts.ChunkVoice` | api/multi_sentence_tts.py:109-127 | sentence `i` is synthesized by its inherited speaker from that speaker's query for its own text, tuned with its inherited volume, pitch and speed |
| `MultiSentenceTts.AssembleLayout` | api/multi_sentence_tts.py:132-150 | a response carries the first chunk's parameters and every chunk's frames, in order, each but the first preceded by the one silence built from those parameters |
| `MultiSentenceTts.AssembleLength` | api/multi_sentence_tts.py:141-150 | the response is `Σ|fi| + (n-1)·|silence|` bytes long |
| `MultiSentenceTts.AssembleFailures` | api/multi_sentence_tts.py:134-139 | the request fails with `WriterRefused` exactly when the first chunk's parameters are refused, with `ZeroFrameRate` exactly when some chunk has frame rate 0, and succeeds otherwise |
| `MultiSentenceTts.TimingsPrefix` | api/multi_sentence_tts.py:139-150 | the timings of the first `k` chunks do not depend on later chunks |
| `MultiSentenceTts.TimingAt` | api/multi_sentence_tts.py:97-150 | sentence 0 starts at 0, each sentence ends its chunk's `nframes/framerate` after its start, and each later one starts `silence_duration` after the previous end |
| `MultiSentenceTts.TimingStart` | api/multi_sentence_tts.py:97-150 | sentence `i` starts at `Σ_{j<i} nframes_j/framerate_j + i·silence_duration` |
| `MultiTts.Defaults` | api/multi_tts.py:61-64 | the reference definition of the values in force before the first sentence; how they reach the engine is given by `DefaultsReachQuery` |
| `MultiTts.NewRequest` | api/multi_tts.py:42-45 | the reference definition of a request that leaves `format` and `silence_duration` out; what it is answered with is given by `NewRequestDefaults` |
| `MultiTts.DefaultsReachQuery` | api/multi_tts.py:61-81 | a field that no sentence up to `i` sets to a truthy value reaches sentence `i`'s query at its default: `volumeScale` 0.5, `pitchScale` 0, `speedScale` 1, and the configured speaker |
| `MultiTts.NewRequestDefaults` | api/multi_tts.py:42-45 | a request without `format` and `silence_duration` is answered in MP3, each chunk but the first preceded by the silence for 1.0 second |
| `MultiTts.TunedQuery` | api/multi_tts.py:78-80 | the reference definition of the query after the three assignments; its meaning is given by `TunedQueryFields`, and `TuneQuery` is proved to produce it |
| `MultiTts.TunedQueryFields` | api/multi_tts.py:78-80 | the query gains exactly `volumeScale`, `pitchScale` and `speedScale`; every other key, the phoneme lengths included, is unchanged |
| `MultiTts.TuneQuery` | api/multi_tts.py:77-80 | the three assignments produce that query |
| `MultiTts.Synthesis` | api/multi_tts.py:58-103 | the reference definition of the response: `NoSentences` for an empty request, otherwise `Assemble` of the engine's chunks; its meaning is given by `Synthesize`, `EmptyRequestFails` and `ChunkVoice` |
| `MultiTts.Assemble` | api/multi_tts.py:85-103 | the reference definition of the writer's result for the engine's chunks; its meaning is given by `AssembleLayout`, `AssembleLength` and `AssembleFailures` |
| `MultiTts.Synthesize` | api/multi_tts.py:49-103 | the endpoint's loop returns the response `Synthesis` defines: the error, or the first chunk's parameters and the stitched stream |
| `MultiTts.WriteChunk` | api/multi_tts.py:85-100 | one chunk keeps the writer's invariant (parameters from the first chunk, cached silence equal to `build_silence`, buffer equal to the stitched stream), or fails exactly when the writer refuses the first chunk |
| `MultiTts.WrittenStep` | api/multi_tts.py:94-100 | the silence and the frames that one more chunk adds |
| `MultiTts.Completed` | api/multi_tts.py:102-103 | the writer's state after every chunk is the response |
| `MultiTts.EmptyRequestFails` | api/multi_tts.py:61 | the request fails with `NoSentences` exactly when it has no sentences |
| `MultiTts.ChunkVoice` | api/multi_tts.py:66-81 | sentence `i` is synthesized by its inherited speaker from that speaker's query for its own text, tuned with its inherited volume, pitch and speed |
| `MultiTts.AssembleFailures` | api/multi_tts.py:86-90 | only the first chunk's parameters can make the request fail; later chunks are written whatever their parameters |
| `MultiTts.AssembleLayout` | api/multi_tts.py:94-100 | a response carries the first chunk's parameters and every chunk's frames, in order, each but the first preceded by the one silence |
| `MultiTts.AssembleLength` | api/multi_tts.py:94-100 | the response is `Σ|fi| + (n-1)·|silence|` bytes long |
| `Endpoints.QueriesDifferOnlyInPauses` | api/multi_sentence_tts.py:121-126 | the newer endpoint's query is the older one's with both phoneme lengths set to 0 |
| `Endpoints.SameStreamForSameChunks` | api/multi_tts.py:85-100 | for the same chunks the two endpoints write the same stream, or fail together, except that the newer one fails on a later chunk with frame rate 0 |

## Left out

- HTTP routing, request validation by the web framework, logging, and the
  `__main__` demo of the splitter: they compute nothing the response depends on.
- The engine itself. Its two calls are total function parameters, so
  unreachable engines, failed calls and malformed answers are not modelled.
- The async client and its connection handling.
- WAV container encoding and decoding (`wave.open`, headers, `getparams`,
  `readframes`). A chunk is its parameters, frame count and frame bytes. A
  chunk the reader would reject (zero channels or zero sample width) cannot be
  built, because those two fields are positive.
- The MP3 encoder (`convert_to_mp3.py`). The response records the requested
  format next to the PCM stream and parameters that would be encoded.
- Configuration loading. The configured speaker is a parameter.
- Python floating point. Durations, positions and `framerate * duration` are
  exact reals, so rounding in `wave_pos` and in the silence frame count is
  not modelled.
- A JSON answer to `audio_query` that is not an object. The query is always a
  map from keys to JSON values.
- A format check across chunks, and a metadata record with its key/value
  store. Neither exists in `api/multi_sentence_tts.py` or `api/multi_tts.py`.
- The routes in `main.py`, `api/basic.py` and `api/sentence.py`. They only
  forward to the engine or to the splitter.
