/**
  What the two `/v1/synthesis` endpoints receive and exchange with the
  speech engine: the request body, the engine's `audio_query` JSON object,
  and the ways a request can fail before any audio is returned.
 */
module Requests {
  import opened Voices
  import opened Waveform

  /** `AudioFormat`: the response is the WAV stream itself or its MP3 encoding. */
  datatype AudioFormat = Wav | Mp3

  /** `RequestBody`: output format, silence between sentences in seconds, the sentences. */
  datatype RequestBody = RequestBody(
    format: AudioFormat,
    silenceDuration: real,
    sentences: seq<SentenceRequest>)

  /** A JSON value as the engine's `audio_query` answer holds them. */
  datatype Json =
    | JNull
    | JBool(b: bool)
    | JNumber(n: real)
    | JString(s: string)
    | JArray(items: seq<Json>)
    | JObject(fields: map<string, Json>)

  /** The `audio_query` object, keyed by field name. */
  type Query = map<string, Json>

  /** Why the endpoint answers with an error instead of audio. */
  datatype SynthesisError =
    | NoSentences          // `body.sentences[0]` on an empty list raises IndexError
    | WriterRefused        // the WAV writer rejects the first chunk's parameters
    | ZeroFrameRate        // `getnframes() / getframerate()` divides by zero

  /** The frames of every chunk, in order. */
  function FramesOf(waves: seq<Wave>): (r: seq<seq<byte>>)
    ensures |r| == |waves| && forall i :: 0 <= i < |waves| ==> r[i] == waves[i].frames
  {
    seq(|waves|, i requires 0 <= i < |waves| => waves[i].frames)
  }

  lemma FramesOfAppend(waves: seq<Wave>, w: Wave)
    ensures FramesOf(waves + [w]) == FramesOf(waves) + [w.frames]
  {
  }

  /** The chunks received after one more step of a writer loop. */
  lemma PrefixSnoc<T>(s: seq<T>, i: nat)
    requires i < |s|
    ensures s[..i + 1] == s[..i] + [s[i]]
  {
  }
}
