/**
  Per-sentence voice parameters and how they carry over from one sentence to
  the next. Both synthesis endpoints keep four running variables (volume,
  pitch, speed, speaker); each sentence replaces a variable with its own
  value when that value is truthy in Python's sense (`override or current`),
  so a missing field, a `0.0` number and an empty speaker all keep the
  previous value.
 */
module Voices {
  import opened Wrappers

  /** One entry of the request's `sentences` list. */
  datatype SentenceRequest = SentenceRequest(
    text: string,
    volume: Option<real>,
    pitch: Option<real>,
    speed: Option<real>,
    speaker: Option<string>)

  /** The values a sentence is synthesized with. */
  datatype Voice = Voice(volume: real, pitch: real, speed: real, speaker: string)

  /** Python truthiness of an optional field whose falsy value is `falsy`. */
  predicate Truthy<T(==)>(o: Option<T>, falsy: T) {
    o.Some? && o.value != falsy
  }

  /** `override or current`. */
  function Or<T(==)>(override: Option<T>, current: T, falsy: T): (r: T)
    ensures Truthy(override, falsy) ==> r == override.value
    ensures !Truthy(override, falsy) ==> r == current
  {
    if Truthy(override, falsy) then override.value else current
  }

  /** One step of the running variables: the four `x = sentence.x or x` lines. */
  function Inherit(v: Voice, s: SentenceRequest): Voice
  {
    Voice(Or(s.volume, v.volume, 0.0), Or(s.pitch, v.pitch, 0.0),
          Or(s.speed, v.speed, 0.0), Or(s.speaker, v.speaker, ""))
  }

  /** The running variables after the first `i` sentences, starting from `start`. */
  function Current(ss: seq<SentenceRequest>, start: Voice, i: nat): Voice
    requires i <= |ss|
  {
    if i == 0 then start else Inherit(Current(ss, start, i - 1), ss[i - 1])
  }

  /**
    The voice sentence `i` is synthesized with: the variables are first seeded
    from the defaults and sentence 0, then the loop applies sentences 0..i.
   */
  function VoiceOf(ss: seq<SentenceRequest>, defaults: Voice, i: nat): Voice
    requires i < |ss|
  {
    Current(ss, Inherit(defaults, ss[0]), i + 1)
  }

  /** Sentence 0 applied twice (seed, then first loop turn) is applied once. */
  lemma InheritIdempotent(v: Voice, s: SentenceRequest)
    ensures Inherit(Inherit(v, s), s) == Inherit(v, s)
  {
  }

  /** Seeding from sentence 0 makes no difference once the loop has run. */
  lemma {:induction false} SeedingIsHarmless(ss: seq<SentenceRequest>, defaults: Voice, n: nat)
    requires 1 <= n <= |ss|
    ensures Current(ss, Inherit(defaults, ss[0]), n) == Current(ss, defaults, n)
  {
    if n == 1 {
      InheritIdempotent(defaults, ss[0]);
    } else {
      SeedingIsHarmless(ss, defaults, n - 1);
    }
  }

  /** The voice of sentence `i` is the defaults with sentences 0..i applied in order. */
  lemma VoiceOfIsReplay(ss: seq<SentenceRequest>, defaults: Voice, i: nat)
    requires i < |ss|
    ensures VoiceOf(ss, defaults, i) == Current(ss, defaults, i + 1)
    ensures i == 0 ==> VoiceOf(ss, defaults, i) == Inherit(defaults, ss[0])
  {
    SeedingIsHarmless(ss, defaults, i + 1);
  }

  // ---------------------------------------------------------------------
  // One field at a time

  /** A single running variable: `x = override or x` over a list of overrides. */
  function Carried<T(==)>(overrides: seq<Option<T>>, falsy: T, start: T, i: nat): T
    requires i <= |overrides|
  {
    if i == 0 then start else Or(overrides[i - 1], Carried(overrides, falsy, start, i - 1), falsy)
  }

  /** No override in `[lo, hi)` is truthy. */
  predicate NoneTruthy<T(==)>(overrides: seq<Option<T>>, falsy: T, lo: int, hi: int) {
    forall k :: lo <= k < hi && 0 <= k < |overrides| ==> !Truthy(overrides[k], falsy)
  }

  /**
    A running variable holds the latest truthy override among the first `i`,
    or its start value when there is none.
   */
  lemma {:induction false} CarriedIsLatest<T>(overrides: seq<Option<T>>, falsy: T, start: T, i: nat)
    requires i <= |overrides|
    ensures NoneTruthy(overrides, falsy, 0, i) ==> Carried(overrides, falsy, start, i) == start
    ensures forall j :: 0 <= j < i && Truthy(overrides[j], falsy) && NoneTruthy(overrides, falsy, j + 1, i) ==>
      Carried(overrides, falsy, start, i) == overrides[j].value
  {
    if i > 0 {
      var last := overrides[i - 1];
      CarriedIsLatest(overrides, falsy, start, i - 1);
      forall j | 0 <= j < i && Truthy(overrides[j], falsy) && NoneTruthy(overrides, falsy, j + 1, i)
        ensures Carried(overrides, falsy, start, i) == overrides[j].value
      {
        if j < i - 1 {
          assert !Truthy(last, falsy);
          assert NoneTruthy(overrides, falsy, j + 1, i - 1);
        }
      }
    }
  }

  function Volumes(ss: seq<SentenceRequest>): (r: seq<Option<real>>)
    ensures |r| == |ss| && forall k :: 0 <= k < |ss| ==> r[k] == ss[k].volume
  {
    seq(|ss|, k requires 0 <= k < |ss| => ss[k].volume)
  }

  function Pitches(ss: seq<SentenceRequest>): (r: seq<Option<real>>)
    ensures |r| == |ss| && forall k :: 0 <= k < |ss| ==> r[k] == ss[k].pitch
  {
    seq(|ss|, k requires 0 <= k < |ss| => ss[k].pitch)
  }

  function Speeds(ss: seq<SentenceRequest>): (r: seq<Option<real>>)
    ensures |r| == |ss| && forall k :: 0 <= k < |ss| ==> r[k] == ss[k].speed
  {
    seq(|ss|, k requires 0 <= k < |ss| => ss[k].speed)
  }

  function Speakers(ss: seq<SentenceRequest>): (r: seq<Option<string>>)
    ensures |r| == |ss| && forall k :: 0 <= k < |ss| ==> r[k] == ss[k].speaker
  {
    seq(|ss|, k requires 0 <= k < |ss| => ss[k].speaker)
  }

  /** The four variables evolve independently of each other. */
  lemma {:induction false} CurrentPerField(ss: seq<SentenceRequest>, start: Voice, i: nat)
    requires i <= |ss|
    ensures Current(ss, start, i) == Voice(
      Carried(Volumes(ss), 0.0, start.volume, i),
      Carried(Pitches(ss), 0.0, start.pitch, i),
      Carried(Speeds(ss), 0.0, start.speed, i),
      Carried(Speakers(ss), "", start.speaker, i))
  {
    if i > 0 {
      CurrentPerField(ss, start, i - 1);
    }
  }

  /**
    The volume sentence `i` is read with is the one given by the latest
    sentence up to `i` whose volume is truthy, or the default. Pitch, speed
    and speaker follow below.
   */
  lemma VolumeIsLatest(ss: seq<SentenceRequest>, defaults: Voice, i: nat)
    requires i < |ss|
    ensures NoneTruthy(Volumes(ss), 0.0, 0, i + 1) ==> VoiceOf(ss, defaults, i).volume == defaults.volume
    ensures forall j :: 0 <= j <= i && Truthy(ss[j].volume, 0.0) && NoneTruthy(Volumes(ss), 0.0, j + 1, i + 1) ==>
      VoiceOf(ss, defaults, i).volume == ss[j].volume.value
  {
    var os := Volumes(ss);
    VoiceOfIsReplay(ss, defaults, i);
    CurrentPerField(ss, defaults, i + 1);
    assert VoiceOf(ss, defaults, i).volume == Carried(os, 0.0, defaults.volume, i + 1);
    CarriedIsLatest(os, 0.0, defaults.volume, i + 1);
    forall j | 0 <= j <= i && Truthy(ss[j].volume, 0.0) && NoneTruthy(os, 0.0, j + 1, i + 1)
      ensures VoiceOf(ss, defaults, i).volume == ss[j].volume.value
    {
      assert os[j] == ss[j].volume;
    }
  }

  lemma PitchIsLatest(ss: seq<SentenceRequest>, defaults: Voice, i: nat)
    requires i < |ss|
    ensures NoneTruthy(Pitches(ss), 0.0, 0, i + 1) ==> VoiceOf(ss, defaults, i).pitch == defaults.pitch
    ensures forall j :: 0 <= j <= i && Truthy(ss[j].pitch, 0.0) && NoneTruthy(Pitches(ss), 0.0, j + 1, i + 1) ==>
      VoiceOf(ss, defaults, i).pitch == ss[j].pitch.value
  {
    var os := Pitches(ss);
    VoiceOfIsReplay(ss, defaults, i);
    CurrentPerField(ss, defaults, i + 1);
    assert VoiceOf(ss, defaults, i).pitch == Carried(os, 0.0, defaults.pitch, i + 1);
    CarriedIsLatest(os, 0.0, defaults.pitch, i + 1);
    forall j | 0 <= j <= i && Truthy(ss[j].pitch, 0.0) && NoneTruthy(os, 0.0, j + 1, i + 1)
      ensures VoiceOf(ss, defaults, i).pitch == ss[j].pitch.value
    {
      assert os[j] == ss[j].pitch;
    }
  }

  lemma SpeedIsLatest(ss: seq<SentenceRequest>, defaults: Voice, i: nat)
    requires i < |ss|
    ensures NoneTruthy(Speeds(ss), 0.0, 0, i + 1) ==> VoiceOf(ss, defaults, i).speed == defaults.speed
    ensures forall j :: 0 <= j <= i && Truthy(ss[j].speed, 0.0) && NoneTruthy(Speeds(ss), 0.0, j + 1, i + 1) ==>
      VoiceOf(ss, defaults, i).speed == ss[j].speed.value
  {
    var os := Speeds(ss);
    VoiceOfIsReplay(ss, defaults, i);
    CurrentPerField(ss, defaults, i + 1);
    assert VoiceOf(ss, defaults, i).speed == Carried(os, 0.0, defaults.speed, i + 1);
    CarriedIsLatest(os, 0.0, defaults.speed, i + 1);
    forall j | 0 <= j <= i && Truthy(ss[j].speed, 0.0) && NoneTruthy(os, 0.0, j + 1, i + 1)
      ensures VoiceOf(ss, defaults, i).speed == ss[j].speed.value
    {
      assert os[j] == ss[j].speed;
    }
  }

  /** The speaker, whose falsy value is the empty string. */
  lemma SpeakerIsLatest(ss: seq<SentenceRequest>, defaults: Voice, i: nat)
    requires i < |ss|
    ensures NoneTruthy(Speakers(ss), "", 0, i + 1) ==> VoiceOf(ss, defaults, i).speaker == defaults.speaker
    ensures forall j :: 0 <= j <= i && Truthy(ss[j].speaker, "") && NoneTruthy(Speakers(ss), "", j + 1, i + 1) ==>
      VoiceOf(ss, defaults, i).speaker == ss[j].speaker.value
  {
    var os := Speakers(ss);
    VoiceOfIsReplay(ss, defaults, i);
    CurrentPerField(ss, defaults, i + 1);
    assert VoiceOf(ss, defaults, i).speaker == Carried(os, "", defaults.speaker, i + 1);
    CarriedIsLatest(os, "", defaults.speaker, i + 1);
    forall j | 0 <= j <= i && Truthy(ss[j].speaker, "") && NoneTruthy(os, "", j + 1, i + 1)
      ensures VoiceOf(ss, defaults, i).speaker == ss[j].speaker.value
    {
      assert os[j] == ss[j].speaker;
    }
  }

  /** A sentence that gives no truthy value at all speaks like its predecessor. */
  lemma SilentOverridesInherit(ss: seq<SentenceRequest>, defaults: Voice, i: nat)
    requires 0 < i < |ss|
    requires !Truthy(ss[i].volume, 0.0) && !Truthy(ss[i].pitch, 0.0)
    requires !Truthy(ss[i].speed, 0.0) && !Truthy(ss[i].speaker, "")
    ensures VoiceOf(ss, defaults, i) == VoiceOf(ss, defaults, i - 1)
  {
  }

  // ---------------------------------------------------------------------
  // Falsy values are omissions

  /** Two optional fields that `or` cannot tell apart. */
  predicate SameOverride<T(==)>(a: Option<T>, b: Option<T>, falsy: T) {
    Truthy(a, falsy) == Truthy(b, falsy) && (Truthy(a, falsy) ==> a.value == b.value)
  }

  /** Two sentences whose fields `or` cannot tell apart (their texts may differ). */
  predicate SameOverrides(s: SentenceRequest, t: SentenceRequest) {
    SameOverride(s.volume, t.volume, 0.0) && SameOverride(s.pitch, t.pitch, 0.0) &&
    SameOverride(s.speed, t.speed, 0.0) && SameOverride(s.speaker, t.speaker, "")
  }

  /** An explicit `0.0` volume, pitch or speed, or an empty speaker, is an omitted field. */
  lemma FalsyIsOmitted(s: SentenceRequest)
    ensures SameOverrides(s.(volume := Some(0.0)), s.(volume := None))
    ensures SameOverrides(s.(pitch := Some(0.0)), s.(pitch := None))
    ensures SameOverrides(s.(speed := Some(0.0)), s.(speed := None))
    ensures SameOverrides(s.(speaker := Some("")), s.(speaker := None))
  {
  }

  lemma {:induction false} CurrentIgnoresFalsy(ss: seq<SentenceRequest>, tt: seq<SentenceRequest>, start: Voice, i: nat)
    requires |ss| == |tt| && i <= |ss|
    requires forall k :: 0 <= k < |ss| ==> SameOverrides(ss[k], tt[k])
    ensures Current(ss, start, i) == Current(tt, start, i)
  {
    if i > 0 {
      CurrentIgnoresFalsy(ss, tt, start, i - 1);
      assert SameOverrides(ss[i - 1], tt[i - 1]);
    }
  }

  /**
    Sentence lists that differ only in falsy versus omitted fields (or in
    their texts) give every sentence the same voice.
   */
  lemma VoicesIgnoreFalsy(ss: seq<SentenceRequest>, tt: seq<SentenceRequest>, defaults: Voice, i: nat)
    requires |ss| == |tt| && i < |ss|
    requires forall k :: 0 <= k < |ss| ==> SameOverrides(ss[k], tt[k])
    ensures VoiceOf(ss, defaults, i) == VoiceOf(tt, defaults, i)
  {
    assert SameOverrides(ss[0], tt[0]);
    CurrentIgnoresFalsy(ss, tt, Inherit(defaults, ss[0]), i + 1);
  }
}
