/**
 The phrase-synthesis HTTP backend: the voice table, request URL and
 bounded retry loop of services/tts/dui_tts_service.py, and the generator of
 services/tts/dui_tts_generator.py that wraps it.
 */
module DuiTts {
  import opened Wrappers
  import opened PyStr
  import opened PosixPath
  import opened AudioBase

  /** Language code to voice id; other languages are unsupported. */
  const Voices: map<string, string> := map[
    "zh-sc" := "wqingf_csn",
    "zh-yue" := "lunaif_ctn",
    "zh" := "qiumum_0gushi"
  ]

  const BaseUrl := "https://dds.dui.ai/runtime/v1/synthesize"
  const Speed := 1
  const Volume := 50
  const AudioType := "wav"
  const MaxRetries := 3
  /** Seconds slept between attempts; the model counts sleeps rather than time. */
  const RetryDelay := 1

  /** The voice id for a language, looked up by its lower-cased code. */
  function Voice(language: string): (v: Option<string>)
    ensures v.Some? <==> Lower(language) in Voices
    ensures v.Some? ==> v.value == Voices[Lower(language)]
  {
    var code := Lower(language);
    if code in Voices then Some(Voices[code]) else None
  }

  /** The lookup ignores ASCII case. */
  lemma VoiceIgnoresCase(language: string)
    ensures Voice(language) == Voice(Lower(language))
  {
    LowerIdempotent(language);
  }

  /** The table as configured: the three Chinese codes, in any case, have
      voices; English and everything else are unsupported. */
  lemma VoiceTable()
    ensures Voice("zh-sc") == Some("wqingf_csn") && Voice("ZH-SC") == Some("wqingf_csn")
    ensures Voice("zh-yue") == Some("lunaif_ctn")
    ensures Voice("zh") == Some("qiumum_0gushi")
    ensures Voice("en") == None && Voice("") == None
  {
    assert Lower("zh-sc") == "zh-sc" && Lower("ZH-SC") == "zh-sc";
    assert Lower("zh-yue") == "zh-yue";
    assert Lower("zh") == "zh";
    assert Lower("en") == "en" && "en" !in Voices;
  }

  /** The request's query parameters, as `k=v` strings in insertion order. */
  function QueryPairs(voiceId: string, quotedText: string): seq<string> {
    [ "voiceId=" + voiceId,
      "text=" + quotedText,
      "speed=" + IntToString(Speed),
      "volume=" + IntToString(Volume),
      "audioType=" + AudioType ]
  }

  /** `f"{base_url}?{'&'.join(...)}"`. When neither the voice id nor the quoted
      text contains `&`, splitting the query string at `&` recovers the five
      parameters in order. */
  function RequestUrl(voiceId: string, text: string, quote: string -> string): (url: string)
    ensures StartsWith(url, BaseUrl + "?")
    ensures '&' !in voiceId && '&' !in quote(text) ==>
              Split(url[|BaseUrl| + 1..], '&') ==
                ["voiceId=" + voiceId, "text=" + quote(text), "speed=1", "volume=50", "audioType=wav"]
  {
    var pairs := QueryPairs(voiceId, quote(text));
    var query := JoinBy(pairs, '&');
    var url := BaseUrl + "?" + query;
    assert url[|BaseUrl| + 1..] == query;
    QueryRoundTrip(voiceId, quote(text));
    url
  }

  /** The parameters carry the literal settings, and separator-free values split back out. */
  lemma QueryRoundTrip(voiceId: string, quotedText: string)
    ensures QueryPairs(voiceId, quotedText) ==
              ["voiceId=" + voiceId, "text=" + quotedText, "speed=1", "volume=50", "audioType=wav"]
    ensures '&' !in voiceId && '&' !in quotedText ==>
              Split(JoinBy(QueryPairs(voiceId, quotedText), '&'), '&') == QueryPairs(voiceId, quotedText)
  {
    var pairs := QueryPairs(voiceId, quotedText);
    assert DigitChar(1) == '1' && DigitChar(5) == '5' && DigitChar(0) == '0';
    assert NatToString(50) == NatToString(5) + [DigitChar(0)];
    assert IntToString(Speed) == "1";
    assert IntToString(Volume) == "50";
    assert "speed=" + IntToString(Speed) == "speed=1";
    assert "volume=" + IntToString(Volume) == "volume=50";
    assert "audioType=" + AudioType == "audioType=wav";
    if '&' !in voiceId && '&' !in quotedText {
      forall i | 0 <= i < |pairs| ensures '&' !in pairs[i] { }
      SplitJoin(pairs, '&');
    }
  }

  /** An attempt outcome after which the loop tries again: a non-200 status
      or a caught exception. */
  predicate Retryable(o: AttemptOutcome) {
    (o.HttpStatus? && o.status != 200) || o.AttemptFailed?
  }

  /** Some attempt within the bound gets status 200 and every attempt before it is retryable. */
  predicate SucceedsWithin(url: string, attempt: (string, nat) -> AttemptOutcome) {
    exists k :: 0 <= k < MaxRetries && attempt(url, k) == HttpStatus(200) &&
                forall j :: 0 <= j < k ==> Retryable(attempt(url, j))
  }

  /** The language has a voice and a request for `text` succeeds within the retry bound. */
  predicate SpeechSucceeds(text: string, language: string, quote: string -> string,
                           attempt: (string, nat) -> AttemptOutcome) {
    Voice(language).Some? && SucceedsWithin(RequestUrl(Voice(language).value, text, quote), attempt)
  }

  /** How the retry loop ended: a 200 response, all attempts used up, or a
      cancellation that propagated out of the loop. */
  datatype LoopEnd = Succeeded | Exhausted | Interrupted

  /** The retry loop's course: how it ended, how many requests it made and
      how many times it slept. */
  datatype RetryRun = RetryRun(end: LoopEnd, attempts: nat, sleeps: nat)

  /** The retry loop from attempt `k` on, having slept `sleeps` times so far.
      Every attempt before the last one was retryable; the last one decides
      how the loop ended. */
  function Retry(url: string, attempt: (string, nat) -> AttemptOutcome, k: nat, sleeps: nat): (run: RetryRun)
    requires k < MaxRetries
    ensures k < run.attempts <= MaxRetries
    ensures run.sleeps == sleeps + (run.attempts - 1 - k)
    ensures forall j :: k <= j < run.attempts - 1 ==> Retryable(attempt(url, j))
    ensures run.end == Succeeded <==> attempt(url, run.attempts - 1) == HttpStatus(200)
    ensures run.end == Interrupted <==> attempt(url, run.attempts - 1).AttemptCancelled?
    ensures run.end == Exhausted ==> run.attempts == MaxRetries
    decreases MaxRetries - k
  {
    var o := attempt(url, k);
    if o == HttpStatus(200) then RetryRun(Succeeded, k + 1, sleeps)
    else if o.AttemptCancelled? then RetryRun(Interrupted, k + 1, sleeps)
    else if k < MaxRetries - 1 then Retry(url, attempt, k + 1, sleeps + 1)
    else RetryRun(Exhausted, k + 1, sleeps)
  }

  /** The loop run from the first attempt ends in success exactly when some
      attempt within the bound succeeds after only retryable failures. */
  lemma RetrySucceeds(url: string, attempt: (string, nat) -> AttemptOutcome)
    ensures Retry(url, attempt, 0, 0).end == Succeeded <==> SucceedsWithin(url, attempt)
    ensures Retry(url, attempt, 0, 0).sleeps == Retry(url, attempt, 0, 0).attempts - 1
  {
    var run := Retry(url, attempt, 0, 0);
    if run.end == Succeeded {
      assert attempt(url, run.attempts - 1) == HttpStatus(200);
    }
    if SucceedsWithin(url, attempt) {
      var k :| 0 <= k < MaxRetries && attempt(url, k) == HttpStatus(200) &&
               forall j :: 0 <= j < k ==> Retryable(attempt(url, j));
      assert !Retryable(attempt(url, k));
    }
  }

  /** One `generate_speech` call: what it returns, how many requests it made
      and how many times it slept. */
  datatype SpeechRun = SpeechRun(result: ServiceResult, attempts: nat, sleeps: nat)

  /** `DuiTTSService.generate_speech`. An unsupported language returns `None`
      before any request; otherwise at most three requests are made, the
      first status 200 returns the output file's basename, there is one sleep
      between consecutive attempts and none after the last, and exhausting
      the attempts returns `None`. */
  function GenerateSpeech(text: string, language: string, outputPath: string,
                          quote: string -> string, attempt: (string, nat) -> AttemptOutcome): (run: SpeechRun)
    ensures run.result == Returned(Some(Basename(outputPath))) || run.result == Returned(None) || run.result == Cancelled
    ensures run.result == Returned(Some(Basename(outputPath))) <==> SpeechSucceeds(text, language, quote, attempt)
    ensures Voice(language).None? ==> run == SpeechRun(Returned(None), 0, 0)
    ensures Voice(language).Some? ==>
              var url := RequestUrl(Voice(language).value, text, quote);
              && 1 <= run.attempts <= MaxRetries
              && run.sleeps == run.attempts - 1
              && (forall j :: 0 <= j < run.attempts - 1 ==> Retryable(attempt(url, j)))
              && (run.result == Returned(None) ==> run.attempts == MaxRetries)
  {
    match Voice(language)
    case None => SpeechRun(Returned(None), 0, 0)
    case Some(voiceId) =>
      var url := RequestUrl(voiceId, text, quote);
      var loop := Retry(url, attempt, 0, 0);
      RetrySucceeds(url, attempt);
      match loop.end
      case Succeeded => SpeechRun(Returned(Some(Basename(outputPath))), loop.attempts, loop.sleeps)
      case Exhausted => SpeechRun(Returned(None), loop.attempts, loop.sleeps)
      case Interrupted => SpeechRun(Cancelled, loop.attempts, loop.sleeps)
  }

  /** The same retry loop written as the source writes it, with a `for`
      over the attempts; it computes exactly `GenerateSpeech`. */
  method GenerateSpeechLoop(text: string, language: string, outputPath: string,
                            quote: string -> string, attempt: (string, nat) -> AttemptOutcome)
    returns (result: ServiceResult, attempts: nat, sleeps: nat)
    ensures SpeechRun(result, attempts, sleeps) == GenerateSpeech(text, language, outputPath, quote, attempt)
    ensures attempts <= MaxRetries
  {
    var voice := Voice(language);
    if voice.None? {
      return Returned(None), 0, 0;
    }
    var url := RequestUrl(voice.value, text, quote);
    attempts, sleeps := 0, 0;
    var k := 0;
    while k < MaxRetries
      invariant 0 <= k <= MaxRetries
      invariant attempts == k
      invariant sleeps == if k < MaxRetries then k else MaxRetries - 1
      invariant k < MaxRetries ==> Retry(url, attempt, 0, 0) == Retry(url, attempt, k, sleeps)
      invariant k == MaxRetries ==> Retry(url, attempt, 0, 0) == RetryRun(Exhausted, MaxRetries, MaxRetries - 1)
    {
      var o := attempt(url, k);
      attempts := attempts + 1;
      if o == HttpStatus(200) {
        return Returned(Some(Basename(outputPath))), attempts, sleeps;
      }
      if o.AttemptCancelled? {
        return Cancelled, attempts, sleeps;
      }
      if k < MaxRetries - 1 {
        sleeps := sleeps + 1;
      }
      k := k + 1;
    }
    result := Returned(None);
  }

  /** `DuiTTSGenerator.generate_audio`: the shared generator body over this
      backend's `generate_speech`. It yields audio exactly when the
      arguments are non-empty, the language has a voice, and some request
      within the retry bound succeeds after only retryable failures. */
  function GenerateAudio(text: string, language: string, word: string, env: AudioEnv): (run: AudioRun)
    ensures !NonEmptyArguments(text, language, word) ==> run == AudioRun(None, None)
    ensures var path := GetAudioPath(AudioDir(env.storageDir), word, language, text, env.hash);
            && (NonEmptyArguments(text, language, word) ==> run.servicePath == Some(path))
            && (run.result.Some? <==>
                  NonEmptyArguments(text, language, word) && SpeechSucceeds(text, language, env.quote, env.attempt))
            && (run.result.Some? ==> run.result.value == Basename(path))
    ensures run.result.Some? && '/' !in word && '/' !in language ==>
              run.result == Some(AudioFilename(word, language, text, env.hash))
  {
    var audioDir := AudioDir(env.storageDir);
    var path := GetAudioPath(audioDir, word, language, text, env.hash);
    AudioBasenameNonEmpty(audioDir, word, language, text, env.hash);
    GeneratorRun(text, language, word, path, GenerateSpeech(text, language, path, env.quote, env.attempt).result)
  }
}
