/**
 The general multi-language TTS backend: the voice table and
 `generate_speech` of services/tts/tts_service.py, and the generator of
 services/tts/edge_tts_generator.py that wraps it.
 */
module EdgeTts {
  import opened Wrappers
  import opened PyStr
  import opened PosixPath
  import opened AudioBase

  const EnglishVoice := "en-US-ChristopherNeural"

  /** Language code to voice; Sichuanese borrows a Mandarin voice. */
  const Voices: map<string, string> := map[
    "en" := EnglishVoice,
    "zh-yue" := "zh-HK-HiuGaaiNeural",
    "zh" := "zh-CN-XiaoxiaoNeural",
    "zh-sc" := "zh-CN-YunxiNeural"
  ]

  /** The voice for a language: looked up by its lower-cased code, English when unknown. */
  function Voice(language: string): (v: string)
    ensures v in Voices.Values
    ensures Lower(language) in Voices ==> v == Voices[Lower(language)]
    ensures Lower(language) !in Voices ==> v == EnglishVoice
  {
    var code := Lower(language);
    assert Voices["en"] == EnglishVoice;
    if code in Voices then Voices[code] else EnglishVoice
  }

  /** The lookup ignores ASCII case. */
  lemma VoiceIgnoresCase(language: string)
    ensures Voice(language) == Voice(Lower(language))
  {
    LowerIdempotent(language);
  }

  /** The table as configured: each supported code, in any case, has its own
      voice; Sichuanese borrows a Mandarin voice; anything else is read in English. */
  lemma VoiceTable()
    ensures Voice("en") == "en-US-ChristopherNeural"
    ensures Voice("zh-yue") == "zh-HK-HiuGaaiNeural" && Voice("ZH-YUE") == "zh-HK-HiuGaaiNeural"
    ensures Voice("zh") == "zh-CN-XiaoxiaoNeural"
    ensures Voice("zh-sc") == "zh-CN-YunxiNeural" && Voice("ZH-SC") == "zh-CN-YunxiNeural"
    ensures Voice("fr") == EnglishVoice && Voice("") == EnglishVoice
  {
    assert Lower("en") == "en";
    assert Lower("zh-yue") == "zh-yue" && Lower("ZH-YUE") == "zh-yue";
    assert Lower("zh") == "zh";
    assert Lower("zh-sc") == "zh-sc" && Lower("ZH-SC") == "zh-sc";
    assert Lower("fr") == "fr" && "fr" !in Voices;
  }

  /** `TTSService.generate_speech`: synthesise with the language's voice and
      save to `outputPath`; success returns the file's basename, a failure
      returns `None`, a cancellation propagates. */
  function GenerateSpeech(text: string, language: string, outputPath: string,
                          save: (string, string, string) -> SaveOutcome): (r: ServiceResult)
    ensures r == Returned(Some(Basename(outputPath))) <==> save(Voice(language), text, outputPath) == Saved
    ensures r == Returned(None) <==> save(Voice(language), text, outputPath) == SaveFailed
    ensures r == Cancelled <==> save(Voice(language), text, outputPath) == SaveCancelled
  {
    match save(Voice(language), text, outputPath)
    case Saved => Returned(Some(Basename(outputPath)))
    case SaveFailed => Returned(None)
    case SaveCancelled => Cancelled
  }

  /** `EdgeTTSGenerator.generate_audio`: the shared generator body over this
      backend's `generate_speech`. It yields the audio file's basename exactly
      when the arguments are non-empty and the save succeeds. */
  function GenerateAudio(text: string, language: string, word: string, env: AudioEnv): (run: AudioRun)
    ensures !NonEmptyArguments(text, language, word) ==> run == AudioRun(None, None)
    ensures var path := GetAudioPath(AudioDir(env.storageDir), word, language, text, env.hash);
            && (NonEmptyArguments(text, language, word) ==> run.servicePath == Some(path))
            && (run.result.Some? <==>
                  NonEmptyArguments(text, language, word) && env.save(Voice(language), text, path) == Saved)
            && (run.result.Some? ==> run.result.value == Basename(path))
    ensures run.result.Some? && '/' !in word && '/' !in language ==>
              run.result == Some(AudioFilename(word, language, text, env.hash))
  {
    var audioDir := AudioDir(env.storageDir);
    var path := GetAudioPath(audioDir, word, language, text, env.hash);
    AudioBasenameNonEmpty(audioDir, word, language, text, env.hash);
    GeneratorRun(text, language, word, path, GenerateSpeech(text, language, path, env.save))
  }
}
