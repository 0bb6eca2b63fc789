/**
 `TTSStrategyManager` (services/tts/tts_strategy.py): picks the TTS
 generator for a language and forwards the call to it unchanged. Both
 generators share the manager's storage directory, so they share one `env`.
 */
module TtsStrategy {
  import opened Wrappers
  import opened PyStr
  import opened AudioBase
  import EdgeTts
  import DuiTts
  import Strategies

  /** `language_tts_map`: only Sichuanese is bound to the phrase backend. */
  const LanguageTtsMap: map<string, Backend> := map[
    "en" := Edge,
    "zh" := Edge,
    "zh-yue" := Edge,
    "zh-sc" := Dui
  ]

  /** `get_tts_generator(language)`: the lower-cased code looked up, Edge when unknown. */
  function GetTtsGenerator(language: string): (b: Backend)
    ensures b == Dui <==> Lower(language) == "zh-sc"
  {
    var code := Lower(language);
    if code in LanguageTtsMap then LanguageTtsMap[code] else Edge
  }

  /** `generate_audio(text, language, word)`: the chosen generator, called
      with the caller's language exactly as given (not lower-cased). */
  function GenerateAudio(text: string, language: string, word: string, env: AudioEnv): (run: AudioRun)
    ensures Lower(language) != "zh-sc" ==> run == EdgeTts.GenerateAudio(text, language, word, env)
    ensures Lower(language) == "zh-sc" ==> run == DuiTts.GenerateAudio(text, language, word, env)
  {
    match GetTtsGenerator(language)
    case Edge => EdgeTts.GenerateAudio(text, language, word, env)
    case Dui => DuiTts.GenerateAudio(text, language, word, env)
  }

  /** Whatever the case of the code, Sichuanese is spoken by the phrase
      backend's Sichuanese voice, and Mandarin through Edge's Mandarin voice. */
  lemma RoutingTable()
    ensures GetTtsGenerator("zh-sc") == Dui && GetTtsGenerator("ZH-SC") == Dui
    ensures GetTtsGenerator("en") == Edge && GetTtsGenerator("zh") == Edge && GetTtsGenerator("zh-yue") == Edge
    ensures GetTtsGenerator("fr") == Edge && GetTtsGenerator("") == Edge
    ensures DuiTts.Voice("ZH-SC") == Some("wqingf_csn")
    ensures EdgeTts.Voice("zh") == "zh-CN-XiaoxiaoNeural"
  {
    assert Lower("zh-sc") == "zh-sc" && Lower("ZH-SC") == "zh-sc";
    assert Lower("en") == "en" && Lower("zh") == "zh" && Lower("zh-yue") == "zh-yue";
    assert Lower("fr") == "fr";
    EdgeTts.VoiceTable();
    DuiTts.VoiceTable();
  }

  /** The manager and the language strategies bind the same generator for
      every language but Mandarin, which the manager sends to Edge and the
      Mandarin strategy to the phrase backend. */
  lemma ManagerMatchesStrategies(s: Strategies.Strategy)
    ensures GetTtsGenerator(s.Code()) == s.Backend() <==> s != Strategies.Mandarin
  {
    Strategies.CodeHasVoice(s);
  }
}
