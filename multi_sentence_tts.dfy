/**
  The multi-sentence synthesis endpoint: each sentence is voiced with the
  running volume, pitch, speed and speaker, sent through the engine's
  `audio_query` and `synthesis` calls, and the returned WAV chunks are
  written one after another with a fixed silence between them; the start
  and end time of every sentence in the result is logged.

  The engine calls are the parameters `audioQuery(text, speaker)` and
  `synthesize(speaker, query)`; the logged timings are part of the result.
 */
module MultiSentenceTts {
  import opened Wrappers
  import opened Voices
  import opened Waveform
  import opened Requests

  const SILENCE_DURATION: real := 0.2
  const DEFAULT_VOLUME: real := 0.5
  const DEFAULT_PITCH: real := 0.0
  const DEFAULT_SPEED: real := 1.0

  /** The values in force before the first sentence. */
  function Defaults(defaultSpeaker: string): (v: Voice)
    ensures v.volume == DEFAULT_VOLUME && v.pitch == DEFAULT_PITCH && v.speed == DEFAULT_SPEED
    ensures v.speaker == defaultSpeaker
  {
    Voice(DEFAULT_VOLUME, DEFAULT_PITCH, DEFAULT_SPEED, defaultSpeaker)
  }

  /** A request body that leaves `format` and `silence_duration` at their defaults. */
  function NewRequest(sentences: seq<SentenceRequest>): (body: RequestBody)
    ensures body.format == Mp3 && body.silenceDuration == SILENCE_DURATION
    ensures body.sentences == sentences
  {
    RequestBody(Mp3, SILENCE_DURATION, sentences)
  }

  /** Start and end, in seconds, of one sentence in the result. */
  datatype Timing = Timing(start: real, end: real)

  /**
    The audio the endpoint returns, before any MP3 encoding, together with
    the `wave_pos` trace the endpoint only logs: `timings` is surfaced here
    so it can be stated, and is not part of the HTTP response.
   */
  datatype Synthesized = Synthesized(
    format: AudioFormat,
    params: Format,
    frames: seq<byte>,
    timings: seq<Timing>)

  /** The keys the endpoint overwrites in the engine's query. */
  function TunedKeys(): set<string>
  {
    {"volumeScale", "pitchScale", "speedScale", "prePhonemeLength", "postPhonemeLength"}
  }

  /** The query after the five assignments: the voice, and no leading or trailing pause. */
  function TunedQuery(q: Query, volume: real, pitch: real, speed: real): Query
  {
    q["volumeScale" := JNumber(volume)]["pitchScale" := JNumber(pitch)]
     ["speedScale" := JNumber(speed)]["prePhonemeLength" := JNumber(0.0)]
     ["postPhonemeLength" := JNumber(0.0)]
  }

  /** What the assignments leave in the query. */
  lemma TunedQueryFields(q: Query, volume: real, pitch: real, speed: real)
    ensures var r := TunedQuery(q, volume, pitch, speed);
      r.Keys == q.Keys + TunedKeys() &&
      r["volumeScale"] == JNumber(volume) &&
      r["pitchScale"] == JNumber(pitch) &&
      r["speedScale"] == JNumber(speed) &&
      r["prePhonemeLength"] == JNumber(0.0) && r["postPhonemeLength"] == JNumber(0.0) &&
      forall k :: k in q && k !in TunedKeys() ==> r[k] == q[k]
  {
  }

  /** What the engine returns for sentence `i`. */
  function Chunk(body: RequestBody, defaultSpeaker: string, audioQuery: (string, string) -> Query,
                 synthesize: (string, Query) -> Wave, i: nat): Wave
    requires i < |body.sentences|
  {
    var v := VoiceOf(body.sentences, Defaults(defaultSpeaker), i);
    synthesize(v.speaker, TunedQuery(audioQuery(body.sentences[i].text, v.speaker), v.volume, v.pitch, v.speed))
  }

  function Chunks(body: RequestBody, defaultSpeaker: string, audioQuery: (string, string) -> Query,
                  synthesize: (string, Query) -> Wave): (r: seq<Wave>)
    ensures |r| == |body.sentences|
    ensures forall i :: 0 <= i < |r| ==> r[i] == Chunk(body, defaultSpeaker, audioQuery, synthesize, i)
  {
    seq(|body.sentences|, i requires 0 <= i < |body.sentences| =>
      Chunk(body, defaultSpeaker, audioQuery, synthesize, i))
  }

  predicate Timed(waves: seq<Wave>) {
    forall i :: 0 <= i < |waves| ==> waves[i].format.framerate > 0
  }

  /** `getnframes() / getframerate()`: the length of a chunk in seconds. */
  function Duration(w: Wave): (d: real)
    requires w.format.framerate > 0
    ensures d >= 0.0
  {
    w.nframes as real / w.format.framerate as real
  }

  /** The logged timing of every chunk: `wave_pos` before and after it. */
  function Timings(waves: seq<Wave>, silence: real): (r: seq<Timing>)
    requires Timed(waves)
    ensures |r| == |waves|
    decreases |waves|
  {
    if waves == [] then []
    else
      var n := |waves| - 1;
      var before := Timings(waves[..n], silence);
      var start := if n == 0 then 0.0 else before[n - 1].end + silence;
      before + [Timing(start, start + Duration(waves[n]))]
  }

  /** The response once the engine has answered for every sentence. */
  function Assemble(format: AudioFormat, silenceDuration: real, chunks: seq<Wave>): Result<Synthesized, SynthesisError>
    requires chunks != []
  {
    var params := chunks[0].format;
    if !WriterAccepts(params) then Failure(WriterRefused)
    else if !Timed(chunks) then Failure(ZeroFrameRate)
    else
      var silence := BuildSilence(silenceDuration, params);
      Success(Synthesized(format, params, Stitch(FramesOf(chunks), silence), Timings(chunks, silenceDuration)))
  }

  /** The whole response for a request. */
  function Synthesis(body: RequestBody, defaultSpeaker: string, audioQuery: (string, string) -> Query,
                     synthesize: (string, Query) -> Wave): Result<Synthesized, SynthesisError>
  {
    if |body.sentences| == 0 then Failure(NoSentences)
    else Assemble(body.format, body.silenceDuration, Chunks(body, defaultSpeaker, audioQuery, synthesize))
  }

  /** The endpoint as written: running variables, a lazily built silence, one pass. */
  method Synthesize(body: RequestBody, defaultSpeaker: string, audioQuery: (string, string) -> Query,
                    synthesize: (string, Query) -> Wave)
    returns (result: Result<Synthesized, SynthesisError>)
    ensures result == Synthesis(body, defaultSpeaker, audioQuery, synthesize)
  {
    var sentences := body.sentences;
    if |sentences| == 0 {
      return Failure(NoSentences);
    }
    ghost var chunks := Chunks(body, defaultSpeaker, audioQuery, synthesize);
    ghost var seed := Inherit(Defaults(defaultSpeaker), sentences[0]);
    var silenceDuration := body.silenceDuration;
    var buffer: seq<byte> := [];
    var waveParams: Option<Format> := None;
    var wavePos: real := 0.0;
    var timings: seq<Timing> := [];
    var silenceWave: Option<seq<byte>> := None;
    ghost var received: seq<Wave> := [];

    var volume := Or(sentences[0].volume, DEFAULT_VOLUME, 0.0);
    var pitch := Or(sentences[0].pitch, DEFAULT_PITCH, 0.0);
    var speed := Or(sentences[0].speed, DEFAULT_SPEED, 0.0);
    var speaker := Or(sentences[0].speaker, defaultSpeaker, "");

    for idx := 0 to |sentences|
      invariant Voice(volume, pitch, speed, speaker) == Current(sentences, seed, idx)
      invariant received == chunks[..idx]
      invariant Written(received, silenceDuration, waveParams, silenceWave, buffer, timings, wavePos)
    {
      var sentence := sentences[idx];
      var text := sentence.text;
      ghost var before := Voice(volume, pitch, speed, speaker);
      volume := Or(sentence.volume, volume, 0.0);
      pitch := Or(sentence.pitch, pitch, 0.0);
      speed := Or(sentence.speed, speed, 0.0);
      speaker := Or(sentence.speaker, speaker, "");
      assert Voice(volume, pitch, speed, speaker) == Inherit(before, sentence);

      var audioQueryJson := audioQuery(text, speaker);
      audioQueryJson := TuneQuery(audioQueryJson, volume, pitch, speed);
      var wf := synthesize(speaker, audioQueryJson);
      ChunkFrom(body, defaultSpeaker, audioQuery, synthesize, idx, Voice(volume, pitch, speed, speaker));
      PrefixSnoc(chunks, idx);

      ghost var params0, silence0, buffer0, timings0, pos0 := waveParams, silenceWave, buffer, timings, wavePos;
      var error;
      error, waveParams, silenceWave, buffer, timings, wavePos :=
        WriteChunk(received, idx, wf, silenceDuration, waveParams, silenceWave, buffer, timings, wavePos);
      if error.Some? {
        WriteFailed(body, defaultSpeaker, audioQuery, synthesize, idx, error.value,
                    params0, silence0, buffer0, timings0, pos0);
        return Failure(error.value);
      }
      received := received + [wf];
    }
    Completed(body, defaultSpeaker, audioQuery, synthesize, waveParams, silenceWave, buffer, timings, wavePos);
    return Success(Synthesized(body.format, waveParams.value, buffer, timings));
  }

  /** The five assignments into the engine's query. */
  method TuneQuery(q: Query, volume: real, pitch: real, speed: real) returns (audioQuery: Query)
    ensures audioQuery == TunedQuery(q, volume, pitch, speed)
  {
    audioQuery := q;
    audioQuery := audioQuery["volumeScale" := JNumber(volume)];
    audioQuery := audioQuery["pitchScale" := JNumber(pitch)];
    audioQuery := audioQuery["speedScale" := JNumber(speed)];
    audioQuery := audioQuery["prePhonemeLength" := JNumber(0.0)];
    audioQuery := audioQuery["postPhonemeLength" := JNumber(0.0)];
  }

  /**
    The writer's state after the chunks `received`: the parameters of the
    first one, the cached silence, the bytes so far, the logged timings and
    `wave_pos`.
   */
  ghost predicate Written(received: seq<Wave>, silenceDuration: real, waveParams: Option<Format>,
                          silenceWave: Option<seq<byte>>, buffer: seq<byte>, timings: seq<Timing>, wavePos: real)
  {
    (received == [] <==> waveParams.None?) &&
    (received == [] ==> buffer == [] && timings == [] && wavePos == 0.0 && silenceWave.None?) &&
    (received != [] ==>
      var params := received[0].format;
      var gap := BuildSilence(silenceDuration, params);
      waveParams == Some(params) && WriterAccepts(params) && Timed(received) &&
      (silenceWave.Some? ==> silenceWave.value == gap) &&
      buffer == Stitch(FramesOf(received), gap) &&
      timings == Timings(received, silenceDuration) &&
      wavePos == timings[|received| - 1].end)
  }

  /**
    The body of the `with wave.open(...)` block for the chunk of sentence
    `idx`: the first chunk fixes the writer's parameters, every later one is
    preceded by the (once built, then reused) silence, and `wave_pos`
    advances over both.
   */
  method WriteChunk(ghost received: seq<Wave>, idx: nat, wf: Wave, silenceDuration: real,
                    waveParams: Option<Format>, silenceWave: Option<seq<byte>>,
                    buffer: seq<byte>, timings: seq<Timing>, wavePos: real)
    returns (error: Option<SynthesisError>, waveParams': Option<Format>, silenceWave': Option<seq<byte>>,
             buffer': seq<byte>, timings': seq<Timing>, wavePos': real)
    requires idx == |received|
    requires Written(received, silenceDuration, waveParams, silenceWave, buffer, timings, wavePos)
    ensures error.None? || error == Some(WriterRefused) || error == Some(ZeroFrameRate)
    ensures error == Some(WriterRefused) <==> received == [] && !WriterAccepts(wf.format)
    ensures error == Some(ZeroFrameRate) <==>
      (received != [] || WriterAccepts(wf.format)) && wf.format.framerate == 0
    ensures error.None? ==>
      Written(received + [wf], silenceDuration, waveParams', silenceWave', buffer', timings', wavePos')
  {
    waveParams', silenceWave', buffer', timings', wavePos' := waveParams, silenceWave, buffer, timings, wavePos;
    if waveParams'.None? {
      if !WriterAccepts(wf.format) {
        return Some(WriterRefused), waveParams', silenceWave', buffer', timings', wavePos';
      }
      waveParams' := Some(wf.format);
    }
    var frames := wf.frames;
    if wf.format.framerate == 0 {
      return Some(ZeroFrameRate), waveParams', silenceWave', buffer', timings', wavePos';
    }
    var waveSec := wf.nframes as real / wf.format.framerate as real;

    WrittenStep(received, wf, silenceDuration, waveParams, silenceWave, buffer, timings, wavePos);
    if idx > 0 {
      if silenceWave'.None? {
        silenceWave' := Some(BuildSilence(silenceDuration, waveParams'.value));
      }
      buffer' := buffer' + silenceWave'.value;
      wavePos' := wavePos' + silenceDuration;
    }
    timings' := timings' + [Timing(wavePos', wavePos' + waveSec)];
    buffer' := buffer' + frames;
    wavePos' := wavePos' + waveSec;
    error := None;
  }

  /** What one more chunk does to the writer's state. */
  lemma WrittenStep(received: seq<Wave>, wf: Wave, silenceDuration: real, waveParams: Option<Format>,
                    silenceWave: Option<seq<byte>>, buffer: seq<byte>, timings: seq<Timing>, wavePos: real)
    requires Written(received, silenceDuration, waveParams, silenceWave, buffer, timings, wavePos)
    requires received == [] ==> WriterAccepts(wf.format)
    requires wf.format.framerate > 0
    ensures var params := if received == [] then wf.format else waveParams.value;
      var gap := BuildSilence(silenceDuration, params);
      var silence := if received == [] then silenceWave else Some(gap);
      var start := if received == [] then wavePos else wavePos + silenceDuration;
      var written := (if received == [] then buffer else buffer + gap) + wf.frames;
      Written(received + [wf], silenceDuration, Some(params), silence, written,
              timings + [Timing(start, start + Duration(wf))], start + Duration(wf))
  {
    TimingsAppend(received, wf, silenceDuration);
    FramesOfAppend(received, wf);
    if received == [] {
      assert received + [wf] == [wf];
      StitchAppend([], wf.frames, BuildSilence(silenceDuration, wf.format));
    } else {
      var params := received[0].format;
      assert (received + [wf])[0].format == params;
      StitchAppend(FramesOf(received), wf.frames, BuildSilence(silenceDuration, params));
    }
  }

  /** The engine call of step `idx`, made with the voice in force, yields chunk `idx`. */
  lemma ChunkFrom(body: RequestBody, defaultSpeaker: string, audioQuery: (string, string) -> Query,
                  synthesize: (string, Query) -> Wave, idx: nat, v: Voice)
    requires idx < |body.sentences|
    requires v == Current(body.sentences, Inherit(Defaults(defaultSpeaker), body.sentences[0]), idx + 1)
    ensures Chunks(body, defaultSpeaker, audioQuery, synthesize)[idx] ==
      synthesize(v.speaker, TunedQuery(audioQuery(body.sentences[idx].text, v.speaker), v.volume, v.pitch, v.speed))
  {
  }

  /** A chunk the writer cannot take ends the request with the writer's error. */
  lemma WriteFailed(body: RequestBody, defaultSpeaker: string, audioQuery: (string, string) -> Query,
                    synthesize: (string, Query) -> Wave, idx: nat, error: SynthesisError,
                    waveParams: Option<Format>, silenceWave: Option<seq<byte>>, buffer: seq<byte>,
                    timings: seq<Timing>, wavePos: real)
    requires idx < |body.sentences|
    requires var chunks := Chunks(body, defaultSpeaker, audioQuery, synthesize);
      Written(chunks[..idx], body.silenceDuration, waveParams, silenceWave, buffer, timings, wavePos) &&
      (error == WriterRefused <==> idx == 0 && !WriterAccepts(chunks[idx].format)) &&
      (error == ZeroFrameRate <==> (idx > 0 || WriterAccepts(chunks[idx].format)) && chunks[idx].format.framerate == 0) &&
      (error == WriterRefused || error == ZeroFrameRate)
    ensures Synthesis(body, defaultSpeaker, audioQuery, synthesize) == Failure(error)
  {
    if error == WriterRefused {
      Refused(body, defaultSpeaker, audioQuery, synthesize);
    } else {
      NoFrameRate(body, defaultSpeaker, audioQuery, synthesize, idx, waveParams, silenceWave, buffer, timings, wavePos);
    }
  }

  /** The writer refusing the first chunk is the response. */
  lemma Refused(body: RequestBody, defaultSpeaker: string, audioQuery: (string, string) -> Query,
                synthesize: (string, Query) -> Wave)
    requires body.sentences != []
    requires !WriterAccepts(Chunks(body, defaultSpeaker, audioQuery, synthesize)[0].format)
    ensures Synthesis(body, defaultSpeaker, audioQuery, synthesize) == Failure(WriterRefused)
  {
  }

  /** A chunk without a frame rate, once the writer is set up, is the response. */
  lemma NoFrameRate(body: RequestBody, defaultSpeaker: string, audioQuery: (string, string) -> Query,
                    synthesize: (string, Query) -> Wave, idx: nat, waveParams: Option<Format>,
                    silenceWave: Option<seq<byte>>, buffer: seq<byte>, timings: seq<Timing>, wavePos: real)
    requires idx < |body.sentences|
    requires var chunks := Chunks(body, defaultSpeaker, audioQuery, synthesize);
      Written(chunks[..idx], body.silenceDuration, waveParams, silenceWave, buffer, timings, wavePos) &&
      chunks[idx].format.framerate == 0 && (idx == 0 ==> WriterAccepts(chunks[idx].format))
    ensures Synthesis(body, defaultSpeaker, audioQuery, synthesize) == Failure(ZeroFrameRate)
  {
    var chunks := Chunks(body, defaultSpeaker, audioQuery, synthesize);
    if idx > 0 {
      assert chunks[..idx][0] == chunks[0];
    }
  }

  /** The writer's state after every chunk is the response. */
  lemma Completed(body: RequestBody, defaultSpeaker: string, audioQuery: (string, string) -> Query,
                  synthesize: (string, Query) -> Wave, waveParams: Option<Format>,
                  silenceWave: Option<seq<byte>>, buffer: seq<byte>, timings: seq<Timing>, wavePos: real)
    requires body.sentences != []
    requires Written(Chunks(body, defaultSpeaker, audioQuery, synthesize)[..|body.sentences|],
                     body.silenceDuration, waveParams, silenceWave, buffer, timings, wavePos)
    ensures waveParams.Some?
    ensures Synthesis(body, defaultSpeaker, audioQuery, synthesize) ==
      Success(Synthesized(body.format, waveParams.value, buffer, timings))
  {
    var chunks := Chunks(body, defaultSpeaker, audioQuery, synthesize);
    assert chunks[..|body.sentences|] == chunks;
  }

  /** One more chunk adds one timing and leaves the earlier ones alone. */
  lemma TimingsAppend(waves: seq<Wave>, w: Wave, silence: real)
    requires Timed(waves) && w.format.framerate > 0
    ensures Timed(waves + [w])
    ensures var before := Timings(waves, silence);
      var start := if waves == [] then 0.0 else before[|waves| - 1].end + silence;
      Timings(waves + [w], silence) == before + [Timing(start, start + Duration(w))]
  {
    assert (waves + [w])[..|waves|] == waves;
  }

  // ---------------------------------------------------------------------
  // What the response promises

  /** An empty sentence list is the only way to get `NoSentences`. */
  lemma EmptyRequestFails(body: RequestBody, defaultSpeaker: string, audioQuery: (string, string) -> Query,
                          synthesize: (string, Query) -> Wave)
    ensures Synthesis(body, defaultSpeaker, audioQuery, synthesize) == Failure(NoSentences) <==> body.sentences == []
  {
  }

  /**
    Sentence `i` is synthesized by the speaker in force for it, from that
    speaker's query for its own text, tuned with the volume, pitch and speed
    in force for it: the defaults with sentences `0..i` applied in order.
   */
  lemma ChunkVoice(body: RequestBody, defaultSpeaker: string, audioQuery: (string, string) -> Query,
                   synthesize: (string, Query) -> Wave, i: nat)
    requires i < |body.sentences|
    ensures var v := Current(body.sentences, Defaults(defaultSpeaker), i + 1);
      Chunk(body, defaultSpeaker, audioQuery, synthesize, i) ==
        synthesize(v.speaker, TunedQuery(audioQuery(body.sentences[i].text, v.speaker), v.volume, v.pitch, v.speed))
  {
    VoiceOfIsReplay(body.sentences, Defaults(defaultSpeaker), i);
  }

  /**
    A successful response carries the first chunk's parameters, and every
    chunk's frames, in order, at `ChunkStart`, each but the first preceded
    by the silence built for those parameters.
   */
  lemma AssembleLayout(format: AudioFormat, silenceDuration: real, chunks: seq<Wave>, i: nat)
    requires chunks != [] && Assemble(format, silenceDuration, chunks).Success?
    requires i < |chunks|
    ensures var r := Assemble(format, silenceDuration, chunks).value;
      var gap := BuildSilence(silenceDuration, r.params);
      var at := ChunkStart(FramesOf(chunks), gap, i);
      r.params == chunks[0].format && r.format == format &&
      at + |chunks[i].frames| <= |r.frames| &&
      r.frames[at..at + |chunks[i].frames|] == chunks[i].frames &&
      (i > 0 ==> r.frames[at - |gap|..at] == gap)
  {
    var gap := BuildSilence(silenceDuration, chunks[0].format);
    StitchChunkAt(FramesOf(chunks), gap, i);
    if i > 0 {
      StitchGapBefore(FramesOf(chunks), gap, i);
    }
  }

  /** The response holds exactly the chunks' frames and the silences between them. */
  lemma AssembleLength(format: AudioFormat, silenceDuration: real, chunks: seq<Wave>)
    requires chunks != [] && Assemble(format, silenceDuration, chunks).Success?
    ensures var r := Assemble(format, silenceDuration, chunks).value;
      |r.frames| == TotalLength(FramesOf(chunks)) +
        (|chunks| - 1) * |BuildSilence(silenceDuration, r.params)|
  {
    StitchLength(FramesOf(chunks), BuildSilence(silenceDuration, chunks[0].format));
  }

  /**
    Why a request fails once every sentence has been synthesized: the
    writer refuses the first chunk's parameters, or some chunk has no frame
    rate to divide by; otherwise it succeeds.
   */
  lemma AssembleFailures(format: AudioFormat, silenceDuration: real, chunks: seq<Wave>)
    requires chunks != []
    ensures Assemble(format, silenceDuration, chunks) == Failure(WriterRefused) <==> !WriterAccepts(chunks[0].format)
    ensures Assemble(format, silenceDuration, chunks) == Failure(ZeroFrameRate) <==>
      WriterAccepts(chunks[0].format) && exists i :: 0 <= i < |chunks| && chunks[i].format.framerate == 0
    ensures Assemble(format, silenceDuration, chunks).Success? <==>
      forall i :: 0 <= i < |chunks| ==> WriterAccepts(chunks[0].format) && chunks[i].format.framerate > 0
  {
  }

  /** Sum of the chunk lengths in seconds. */
  function TotalDuration(waves: seq<Wave>): real
    requires Timed(waves)
    decreases |waves|
  {
    if waves == [] then 0.0 else TotalDuration(waves[..|waves| - 1]) + Duration(waves[|waves| - 1])
  }

  lemma TimedPrefix(waves: seq<Wave>, k: nat)
    requires Timed(waves) && k <= |waves|
    ensures Timed(waves[..k])
  {
    forall j | 0 <= j < k
      ensures waves[..k][j].format.framerate > 0
    {
      assert waves[..k][j] == waves[j];
    }
  }

  /** The timings of the first `k` chunks do not depend on the later ones. */
  lemma {:induction false} TimingsPrefix(waves: seq<Wave>, silence: real, k: nat)
    requires Timed(waves) && k <= |waves|
    ensures Timed(waves[..k])
    ensures Timings(waves[..k], silence) == Timings(waves, silence)[..k]
    decreases |waves| - k
  {
    TimedPrefix(waves, k);
    if k == |waves| {
      assert waves[..k] == waves;
    } else {
      TimingsPrefix(waves, silence, k + 1);
      var w := waves[..k + 1];
      assert w[..k] == waves[..k];
    }
  }

  /**
    The logged timings chain up: the first sentence starts at 0, each lasts
    its chunk's duration, and each later one starts `silence` after the
    previous one ends.
   */
  lemma TimingAt(waves: seq<Wave>, silence: real, i: nat)
    requires Timed(waves) && i < |waves|
    ensures var t := Timings(waves, silence);
      t[i].end == t[i].start + Duration(waves[i]) &&
      (i == 0 ==> t[i].start == 0.0) &&
      (i > 0 ==> t[i].start == t[i - 1].end + silence)
  {
    TimingsPrefix(waves, silence, i + 1);
    TimingsPrefix(waves, silence, i);
    var w := waves[..i + 1];
    assert w[..i] == waves[..i];
    assert w[i] == waves[i];
  }

  /** Closed form: sentence `i` starts after all earlier chunks and `i` silences. */
  lemma {:induction false} TimingStart(waves: seq<Wave>, silence: real, i: nat)
    requires Timed(waves) && i < |waves|
    ensures Timed(waves[..i])
    ensures Timings(waves, silence)[i].start == TotalDuration(waves[..i]) + i as real * silence
  {
    TimedPrefix(waves, i);
    TimingAt(waves, silence, i);
    if i == 0 {
      assert waves[..0] == [];
    } else {
      TimingAt(waves, silence, i - 1);
      TimingStart(waves, silence, i - 1);
      assert waves[..i][..i - 1] == waves[..i - 1];
      assert waves[..i][i - 1] == waves[i - 1];
    }
  }

  // ---------------------------------------------------------------------
  // Defaults in the response

  /**
    A field that neither sentence `i` nor any sentence before it sets to a
    truthy value reaches the engine at its default: volume 0.5, pitch 0,
    speed 1, and the configured speaker.
   */
  lemma DefaultsReachQuery(body: RequestBody, defaultSpeaker: string, audioQuery: (string, string) -> Query,
                           synthesize: (string, Query) -> Wave, i: nat)
    requires i < |body.sentences|
    ensures var ss := body.sentences;
      var v := VoiceOf(ss, Defaults(defaultSpeaker), i);
      var q := TunedQuery(audioQuery(ss[i].text, v.speaker), v.volume, v.pitch, v.speed);
      Chunks(body, defaultSpeaker, audioQuery, synthesize)[i] == synthesize(v.speaker, q) &&
      (NoneTruthy(Volumes(ss), 0.0, 0, i + 1) ==> q["volumeScale"] == JNumber(0.5)) &&
      (NoneTruthy(Pitches(ss), 0.0, 0, i + 1) ==> q["pitchScale"] == JNumber(0.0)) &&
      (NoneTruthy(Speeds(ss), 0.0, 0, i + 1) ==> q["speedScale"] == JNumber(1.0)) &&
      (NoneTruthy(Speakers(ss), "", 0, i + 1) ==> v.speaker == defaultSpeaker)
  {
    var ss := body.sentences;
    var d := Defaults(defaultSpeaker);
    var v := VoiceOf(ss, d, i);
    VolumeIsLatest(ss, d, i);
    PitchIsLatest(ss, d, i);
    SpeedIsLatest(ss, d, i);
    SpeakerIsLatest(ss, d, i);
    TunedQueryFields(audioQuery(ss[i].text, v.speaker), v.volume, v.pitch, v.speed);
  }

  /**
    A request that leaves `format` and `silence_duration` out is answered in
    MP3, with every chunk's frames in place, each but the first preceded by
    0.2 seconds of silence and logged as starting 0.2 seconds after the
    previous sentence ends.
   */
  lemma NewRequestDefaults(sentences: seq<SentenceRequest>, defaultSpeaker: string,
                           audioQuery: (string, string) -> Query, synthesize: (string, Query) -> Wave, i: nat)
    requires i < |sentences|
    requires Synthesis(NewRequest(sentences), defaultSpeaker, audioQuery, synthesize).Success?
    ensures var r := Synthesis(NewRequest(sentences), defaultSpeaker, audioQuery, synthesize).value;
      var chunks := Chunks(NewRequest(sentences), defaultSpeaker, audioQuery, synthesize);
      var gap := BuildSilence(0.2, r.params);
      var at := ChunkStart(FramesOf(chunks), gap, i);
      r.format == Mp3 &&
      at + |chunks[i].frames| <= |r.frames| &&
      r.frames[at..at + |chunks[i].frames|] == chunks[i].frames &&
      (i > 0 ==> r.frames[at - |gap|..at] == gap) &&
      (i > 0 ==> r.timings[i].start == r.timings[i - 1].end + 0.2)
  {
    var body := NewRequest(sentences);
    var chunks := Chunks(body, defaultSpeaker, audioQuery, synthesize);
    assert Synthesis(body, defaultSpeaker, audioQuery, synthesize) == Assemble(Mp3, 0.2, chunks);
    AssembleLayout(Mp3, 0.2, chunks, i);
    assert Timed(chunks);
    TimingAt(chunks, 0.2, i);
  }
}
