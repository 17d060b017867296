/**
  The older synthesis endpoint (`api/multi_tts.py`): the first form of the
  multi-sentence endpoint. Each sentence is voiced with the running volume,
  pitch, speed and speaker, sent through the engine's `audio_query` and
  `synthesis` calls, and the returned WAV chunks are written one after
  another with a fixed silence between them. It keeps the engine's leading
  and trailing pauses, logs no timings and never divides by the frame rate.

  The engine calls are the parameters `audioQuery(text, speaker)` and
  `synthesize(speaker, query)`.
 */
module MultiTts {
  import opened Wrappers
  import opened Voices
  import opened Waveform
  import opened Requests

  const SILENCE_DURATION: real := 1.0
  const DEFAULT_VOLUME: real := 0.5
  const DEFAULT_PITCH: real := 0.0
  const DEFAULT_SPEED: real := 1.0

  /** The values in force before the first sentence. */
  function Defaults(defaultSpeaker: string): (v: Voice)
    ensures v.volume == DEFAULT_VOLUME && v.pitch == DEFAULT_PITCH && v.speed == DEFAULT_SPEED
    ensures v.speaker == defaultSpeaker
  {
    Voice(DEFAULT_VOLUME, DEFAULT_PITCH, DEFAULT_SPEED, defaultSpeaker)
  }

  /** A request body that leaves `format` and `silence_duration` at their defaults. */
  function NewRequest(sentences: seq<SentenceRequest>): (body: RequestBody)
    ensures body.format == Mp3 && body.silenceDuration == SILENCE_DURATION
    ensures body.sentences == sentences
  {
    RequestBody(Mp3, SILENCE_DURATION, sentences)
  }

  /** The audio the endpoint returns, before any MP3 encoding. */
  datatype Synthesized = Synthesized(format: AudioFormat, params: Format, frames: seq<byte>)

  /** The keys the endpoint overwrites in the engine's query. */
  function TunedKeys(): set<string>
  {
    {"volumeScale", "pitchScale", "speedScale"}
  }

  /** The query after the three assignments: the voice, every other field as the engine sent it. */
  function TunedQuery(q: Query, volume: real, pitch: real, speed: real): Query
  {
    q["volumeScale" := JNumber(volume)]["pitchScale" := JNumber(pitch)]["speedScale" := JNumber(speed)]
  }

  /** What the assignments leave in the query. */
  lemma TunedQueryFields(q: Query, volume: real, pitch: real, speed: real)
    ensures var r := TunedQuery(q, volume, pitch, speed);
      r.Keys == q.Keys + TunedKeys() &&
      r["volumeScale"] == JNumber(volume) &&
      r["pitchScale"] == JNumber(pitch) &&
      r["speedScale"] == JNumber(speed) &&
      forall k :: k in q && k !in TunedKeys() ==> r[k] == q[k]
  {
  }

  /** What the engine returns for sentence `i`. */
  function Chunk(body: RequestBody, defaultSpeaker: string, audioQuery: (string, string) -> Query,
                 synthesize: (string, Query) -> Wave, i: nat): Wave
    requires i < |body.sentences|
  {
    var v := VoiceOf(body.sentences, Defaults(defaultSpeaker), i);
    synthesize(v.speaker, TunedQuery(audioQuery(body.sentences[i].text, v.speaker), v.volume, v.pitch, v.speed))
  }

  function Chunks(body: RequestBody, defaultSpeaker: string, audioQuery: (string, string) -> Query,
                  synthesize: (string, Query) -> Wave): (r: seq<Wave>)
    ensures |r| == |body.sentences|
    ensures forall i :: 0 <= i < |r| ==> r[i] == Chunk(body, defaultSpeaker, audioQuery, synthesize, i)
  {
    seq(|body.sentences|, i requires 0 <= i < |body.sentences| =>
      Chunk(body, defaultSpeaker, audioQuery, synthesize, i))
  }

  /** The response once the engine has answered for every sentence. */
  function Assemble(format: AudioFormat, silenceDuration: real, chunks: seq<Wave>): Result<Synthesized, SynthesisError>
    requires chunks != []
  {
    var params := chunks[0].format;
    if !WriterAccepts(params) then Failure(WriterRefused)
    else Success(Synthesized(format, params, Stitch(FramesOf(chunks), BuildSilence(silenceDuration, params))))
  }

  /** The whole response for a request. */
  function Synthesis(body: RequestBody, defaultSpeaker: string, audioQuery: (string, string) -> Query,
                     synthesize: (string, Query) -> Wave): Result<Synthesized, SynthesisError>
  {
    if |body.sentences| == 0 then Failure(NoSentences)
    else Assemble(body.format, body.silenceDuration, Chunks(body, defaultSpeaker, audioQuery, synthesize))
  }

  /** The endpoint as written: running variables, a lazily built silence, one pass. */
  method Synthesize(body: RequestBody, defaultSpeaker: string, audioQuery: (string, string) -> Query,
                    synthesize: (string, Query) -> Wave)
    returns (result: Result<Synthesized, SynthesisError>)
    ensures result == Synthesis(body, defaultSpeaker, audioQuery, synthesize)
  {
    var sentences := body.sentences;
    if |sentences| == 0 {
      return Failure(NoSentences);
    }
    ghost var chunks := Chunks(body, defaultSpeaker, audioQuery, synthesize);
    ghost var seed := Inherit(Defaults(defaultSpeaker), sentences[0]);
    var silenceDuration := body.silenceDuration;
    var buffer: seq<byte> := [];
    var waveParams: Option<Format> := None;
    var silenceWave: Option<seq<byte>> := None;
    ghost var received: seq<Wave> := [];

    var volume := Or(sentences[0].volume, DEFAULT_VOLUME, 0.0);
    var pitch := Or(sentences[0].pitch, DEFAULT_PITCH, 0.0);
    var speed := Or(sentences[0].speed, DEFAULT_SPEED, 0.0);
    var speaker := Or(sentences[0].speaker, defaultSpeaker, "");

    for idx := 0 to |sentences|
      invariant Voice(volume, pitch, speed, speaker) == Current(sentences, seed, idx)
      invariant received == chunks[..idx]
      invariant Written(received, silenceDuration, waveParams, silenceWave, buffer)
    {
      var sentence := sentences[idx];
      var text := sentence.text;
      ghost var before := Voice(volume, pitch, speed, speaker);
      volume := Or(sentence.volume, volume, 0.0);
      pitch := Or(sentence.pitch, pitch, 0.0);
      speed := Or(sentence.speed, speed, 0.0);
      speaker := Or(sentence.speaker, speaker, "");
      assert Voice(volume, pitch, speed, speaker) == Inherit(before, sentence);

      var audioQueryJson := audioQuery(text, speaker);
      audioQueryJson := TuneQuery(audioQueryJson, volume, pitch, speed);
      var wf := synthesize(speaker, audioQueryJson);
      ChunkFrom(body, defaultSpeaker, audioQuery, synthesize, idx, Voice(volume, pitch, speed, speaker));
      PrefixSnoc(chunks, idx);

      var refused;
      refused, waveParams, silenceWave, buffer :=
        WriteChunk(received, idx, wf, silenceDuration, waveParams, silenceWave, buffer);
      if refused {
        Refused(body, defaultSpeaker, audioQuery, synthesize);
        return Failure(WriterRefused);
      }
      received := received + [wf];
    }
    Completed(body, defaultSpeaker, audioQuery, synthesize, waveParams, silenceWave, buffer);
    return Success(Synthesized(body.format, waveParams.value, buffer));
  }

  /** The three assignments into the engine's query. */
  method TuneQuery(q: Query, volume: real, pitch: real, speed: real) returns (audioQuery: Query)
    ensures audioQuery == TunedQuery(q, volume, pitch, speed)
  {
    audioQuery := q;
    audioQuery := audioQuery["volumeScale" := JNumber(volume)];
    audioQuery := audioQuery["pitchScale" := JNumber(pitch)];
    audioQuery := audioQuery["speedScale" := JNumber(speed)];
  }

  /**
    The writer's state after the chunks `received`: the parameters of the
    first one, the cached silence and the bytes so far.
   */
  ghost predicate Written(received: seq<Wave>, silenceDuration: real, waveParams: Option<Format>,
                          silenceWave: Option<seq<byte>>, buffer: seq<byte>)
  {
    (received == [] <==> waveParams.None?) &&
    (received == [] ==> buffer == [] && silenceWave.None?) &&
    (received != [] ==>
      var params := received[0].format;
      var gap := BuildSilence(silenceDuration, params);
      waveParams == Some(params) && WriterAccepts(params) &&
      (silenceWave.Some? ==> silenceWave.value == gap) &&
      buffer == Stitch(FramesOf(received), gap))
  }

  /**
    The body of the `with wave.open(...)` block for the chunk of sentence
    `idx`: the first chunk fixes the writer's parameters, every later one is
    preceded by the (once built, then reused) silence.
   */
  method WriteChunk(ghost received: seq<Wave>, idx: nat, wf: Wave, silenceDuration: real,
                    waveParams: Option<Format>, silenceWave: Option<seq<byte>>, buffer: seq<byte>)
    returns (refused: bool, waveParams': Option<Format>, silenceWave': Option<seq<byte>>, buffer': seq<byte>)
    requires idx == |received|
    requires Written(received, silenceDuration, waveParams, silenceWave, buffer)
    ensures refused <==> received == [] && !WriterAccepts(wf.format)
    ensures !refused ==> Written(received + [wf], silenceDuration, waveParams', silenceWave', buffer')
  {
    waveParams', silenceWave', buffer' := waveParams, silenceWave, buffer;
    if waveParams'.None? {
      if !WriterAccepts(wf.format) {
        return true, waveParams', silenceWave', buffer';
      }
      waveParams' := Some(wf.format);
    }
    var frames := wf.frames;

    WrittenStep(received, wf, silenceDuration, waveParams, silenceWave, buffer);
    if idx > 0 {
      if silenceWave'.None? {
        silenceWave' := Some(BuildSilence(silenceDuration, waveParams'.value));
      }
      buffer' := buffer' + silenceWave'.value;
    }
    buffer' := buffer' + frames;
    refused := false;
  }

  /** What one more chunk does to the writer's state. */
  lemma WrittenStep(received: seq<Wave>, wf: Wave, silenceDuration: real, waveParams: Option<Format>,
                    silenceWave: Option<seq<byte>>, buffer: seq<byte>)
    requires Written(received, silenceDuration, waveParams, silenceWave, buffer)
    requires received == [] ==> WriterAccepts(wf.format)
    ensures var params := if received == [] then wf.format else waveParams.value;
      var gap := BuildSilence(silenceDuration, params);
      var silence := if received == [] then silenceWave else Some(gap);
      var written := (if received == [] then buffer else buffer + gap) + wf.frames;
      Written(received + [wf], silenceDuration, Some(params), silence, written)
  {
    FramesOfAppend(received, wf);
    if received == [] {
      assert received + [wf] == [wf];
      StitchAppend([], wf.frames, BuildSilence(silenceDuration, wf.format));
    } else {
      var params := received[0].format;
      assert (received + [wf])[0].format == params;
      StitchAppend(FramesOf(received), wf.frames, BuildSilence(silenceDuration, params));
    }
  }

  /** The engine call of step `idx`, made with the voice in force, yields chunk `idx`. */
  lemma ChunkFrom(body: RequestBody, defaultSpeaker: string, audioQuery: (string, string) -> Query,
                  synthesize: (string, Query) -> Wave, idx: nat, v: Voice)
    requires idx < |body.sentences|
    requires v == Current(body.sentences, Inherit(Defaults(defaultSpeaker), body.sentences[0]), idx + 1)
    ensures Chunks(body, defaultSpeaker, audioQuery, synthesize)[idx] ==
      synthesize(v.speaker, TunedQuery(audioQuery(body.sentences[idx].text, v.speaker), v.volume, v.pitch, v.speed))
  {
  }

  /** The writer refusing the first chunk is the response. */
  lemma Refused(body: RequestBody, defaultSpeaker: string, audioQuery: (string, string) -> Query,
                synthesize: (string, Query) -> Wave)
    requires body.sentences != []
    requires !WriterAccepts(Chunks(body, defaultSpeaker, audioQuery, synthesize)[0].format)
    ensures Synthesis(body, defaultSpeaker, audioQuery, synthesize) == Failure(WriterRefused)
  {
  }

  /** The writer's state after every chunk is the response. */
  lemma Completed(body: RequestBody, defaultSpeaker: string, audioQuery: (string, string) -> Query,
                  synthesize: (string, Query) -> Wave, waveParams: Option<Format>,
                  silenceWave: Option<seq<byte>>, buffer: seq<byte>)
    requires body.sentences != []
    requires Written(Chunks(body, defaultSpeaker, audioQuery, synthesize)[..|body.sentences|],
                     body.silenceDuration, waveParams, silenceWave, buffer)
    ensures waveParams.Some?
    ensures Synthesis(body, defaultSpeaker, audioQuery, synthesize) ==
      Success(Synthesized(body.format, waveParams.value, buffer))
  {
    var chunks := Chunks(body, defaultSpeaker, audioQuery, synthesize);
    assert chunks[..|body.sentences|] == chunks;
  }

  // ---------------------------------------------------------------------
  // What the response promises

  /** An empty sentence list is the only way to get `NoSentences`. */
  lemma EmptyRequestFails(body: RequestBody, defaultSpeaker: string, audioQuery: (string, string) -> Query,
                          synthesize: (string, Query) -> Wave)
    ensures Synthesis(body, defaultSpeaker, audioQuery, synthesize) == Failure(NoSentences) <==> body.sentences == []
  {
  }

  /**
    Sentence `i` is synthesized by the speaker in force for it, from that
    speaker's query for its own text, tuned with the volume, pitch and speed
    in force for it: the defaults with sentences `0..i` applied in order.
   */
  lemma ChunkVoice(body: RequestBody, defaultSpeaker: string, audioQuery: (string, string) -> Query,
                   synthesize: (string, Query) -> Wave, i: nat)
    requires i < |body.sentences|
    ensures var v := Current(body.sentences, Defaults(defaultSpeaker), i + 1);
      Chunk(body, defaultSpeaker, audioQuery, synthesize, i) ==
        synthesize(v.speaker, TunedQuery(audioQuery(body.sentences[i].text, v.speaker), v.volume, v.pitch, v.speed))
  {
    VoiceOfIsReplay(body.sentences, Defaults(defaultSpeaker), i);
  }

  /**
    Only the first chunk's parameters can make the request fail: a later
    chunk with other parameters, even no frame rate, is written as it is.
   */
  lemma AssembleFailures(format: AudioFormat, silenceDuration: real, chunks: seq<Wave>)
    requires chunks != []
    ensures Assemble(format, silenceDuration, chunks) == Failure(WriterRefused) <==> !WriterAccepts(chunks[0].format)
    ensures Assemble(format, silenceDuration, chunks).Success? <==> WriterAccepts(chunks[0].format)
  {
  }

  /**
    A successful response carries the first chunk's parameters, and every
    chunk's frames, in order, at `ChunkStart`, each but the first preceded
    by the silence built for those parameters.
   */
  lemma AssembleLayout(format: AudioFormat, silenceDuration: real, chunks: seq<Wave>, i: nat)
    requires chunks != [] && Assemble(format, silenceDuration, chunks).Success?
    requires i < |chunks|
    ensures var r := Assemble(format, silenceDuration, chunks).value;
      var gap := BuildSilence(silenceDuration, r.params);
      var at := ChunkStart(FramesOf(chunks), gap, i);
      r.params == chunks[0].format && r.format == format &&
      at + |chunks[i].frames| <= |r.frames| &&
      r.frames[at..at + |chunks[i].frames|] == chunks[i].frames &&
      (i > 0 ==> r.frames[at - |gap|..at] == gap)
  {
    var gap := BuildSilence(silenceDuration, chunks[0].format);
    StitchChunkAt(FramesOf(chunks), gap, i);
    if i > 0 {
      StitchGapBefore(FramesOf(chunks), gap, i);
    }
  }

  /** The response holds exactly the chunks' frames and the silences between them. */
  lemma AssembleLength(format: AudioFormat, silenceDuration: real, chunks: seq<Wave>)
    requires chunks != [] && Assemble(format, silenceDuration, chunks).Success?
    ensures var r := Assemble(format, silenceDuration, chunks).value;
      |r.frames| == TotalLength(FramesOf(chunks)) +
        (|chunks| - 1) * |BuildSilence(silenceDuration, r.params)|
  {
    StitchLength(FramesOf(chunks), BuildSilence(silenceDuration, chunks[0].format));
  }

  // ---------------------------------------------------------------------
  // Defaults in the response

  /**
    A field that neither sentence `i` nor any sentence before it sets to a
    truthy value reaches the engine at its default: volume 0.5, pitch 0,
    speed 1, and the configured speaker.
   */
  lemma DefaultsReachQuery(body: RequestBody, defaultSpeaker: string, audioQuery: (string, string) -> Query,
                           synthesize: (string, Query) -> Wave, i: nat)
    requires i < |body.sentences|
    ensures var ss := body.sentences;
      var v := VoiceOf(ss, Defaults(defaultSpeaker), i);
      var q := TunedQuery(audioQuery(ss[i].text, v.speaker), v.volume, v.pitch, v.speed);
      Chunks(body, defaultSpeaker, audioQuery, synthesize)[i] == synthesize(v.speaker, q) &&
      (NoneTruthy(Volumes(ss), 0.0, 0, i + 1) ==> q["volumeScale"] == JNumber(0.5)) &&
      (NoneTruthy(Pitches(ss), 0.0, 0, i + 1) ==> q["pitchScale"] == JNumber(0.0)) &&
      (NoneTruthy(Speeds(ss), 0.0, 0, i + 1) ==> q["speedScale"] == JNumber(1.0)) &&
      (NoneTruthy(Speakers(ss), "", 0, i + 1) ==> v.speaker == defaultSpeaker)
  {
    var ss := body.sentences;
    var d := Defaults(defaultSpeaker);
    var v := VoiceOf(ss, d, i);
    VolumeIsLatest(ss, d, i);
    PitchIsLatest(ss, d, i);
    SpeedIsLatest(ss, d, i);
    SpeakerIsLatest(ss, d, i);
    TunedQueryFields(audioQuery(ss[i].text, v.speaker), v.volume, v.pitch, v.speed);
  }

  /**
    A request that leaves `format` and `silence_duration` out is answered in
    MP3, with every chunk's frames in place, each but the first preceded by
    1.0 second of silence.
   */
  lemma NewRequestDefaults(sentences: seq<SentenceRequest>, defaultSpeaker: string,
                           audioQuery: (string, string) -> Query, synthesize: (string, Query) -> Wave, i: nat)
    requires i < |sentences|
    requires Synthesis(NewRequest(sentences), defaultSpeaker, audioQuery, synthesize).Success?
    ensures var r := Synthesis(NewRequest(sentences), defaultSpeaker, audioQuery, synthesize).value;
      var chunks := Chunks(NewRequest(sentences), defaultSpeaker, audioQuery, synthesize);
      var gap := BuildSilence(1.0, r.params);
      var at := ChunkStart(FramesOf(chunks), gap, i);
      r.format == Mp3 &&
      at + |chunks[i].frames| <= |r.frames| &&
      r.frames[at..at + |chunks[i].frames|] == chunks[i].frames &&
      (i > 0 ==> r.frames[at - |gap|..at] == gap)
  {
    var body := NewRequest(sentences);
    var chunks := Chunks(body, defaultSpeaker, audioQuery, synthesize);
    assert Synthesis(body, defaultSpeaker, audioQuery, synthesize) == Assemble(Mp3, 1.0, chunks);
    AssembleLayout(Mp3, 1.0, chunks, i);
  }
}
