/**
  How the two synthesis endpoints relate: the multi-sentence endpoint asks
  the engine for the same voice with the pauses removed, and writes the
  chunks it gets back exactly as the older endpoint does.
 */
module Endpoints {
  import opened Wrappers
  import opened Waveform
  import opened Requests
  import MultiSentenceTts
  import MultiTts

  /** The newer query is the older one with both pauses set to zero. */
  lemma QueriesDifferOnlyInPauses(q: Query, volume: real, pitch: real, speed: real)
    ensures MultiSentenceTts.TunedQuery(q, volume, pitch, speed) ==
      MultiTts.TunedQuery(q, volume, pitch, speed)["prePhonemeLength" := JNumber(0.0)]["postPhonemeLength" := JNumber(0.0)]
  {
  }

  /**
    For the same chunks, the multi-sentence endpoint returns the very
    stream the older endpoint returns, or fails where the other
    fails, or fails on a chunk without a frame rate, which the other writes.
   */
  lemma SameStreamForSameChunks(format: AudioFormat, silenceDuration: real, chunks: seq<Wave>)
    requires chunks != []
    ensures var newer := MultiSentenceTts.Assemble(format, silenceDuration, chunks);
      var older := MultiTts.Assemble(format, silenceDuration, chunks);
      (newer.Success? ==>
        older.Success? && older.value.params == newer.value.params && older.value.frames == newer.value.frames) &&
      (older.Failure? <==> newer == Failure(WriterRefused)) &&
      (newer == Failure(ZeroFrameRate) ==> older.Success?)
  {
  }
}
