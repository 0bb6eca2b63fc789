/**
 The four language strategies of services/strategies/: how each builds a
 word's definition from LLM replies, translates example sentences, and
 which TTS generator reads its sentences aloud.
 */
module Strategies {
  import opened Wrappers
  import opened PyStr
  import opened LanguageUtils
  import opened ReplyParse
  import opened AudioBase
  import opened PosixPath
  import EdgeTts
  import DuiTts

  datatype Strategy = English | Mandarin | Cantonese | Sichuanese {
    /** The `language_code` each strategy's initializer ends with. */
    function Code(): string {
      match this
      case English => "en"
      case Mandarin => "zh"
      case Cantonese => "zh-yue"
      case Sichuanese => "zh-sc"
    }

    /** The generator its `tts_generator` property builds. */
    function Backend(): Backend {
      match this
      case English => Edge
      case Mandarin => Dui
      case Cantonese => Edge
      case Sichuanese => Dui
    }

    function Labels(): Labels {
      match this
      case English => EnglishLabels
      case Mandarin => EnglishLabels
      case Cantonese => CantoneseLabels
      case Sichuanese => SichuaneseLabels
    }

    /** Mandarin and Cantonese first settle on a Chinese "pronounce word". */
    predicate Translates() {
      this == Mandarin || this == Cantonese
    }
  }

  /** One reply of `get_examples_with_prompt` as the strategy sees it: some
      text (possibly empty), no usable text (`None` or not a `str`), or an
      exception escaping the call. */
  datatype Reply = Text(text: string) | NoText | Raised

  /** `response and isinstance(response, str)`. */
  predicate Usable(r: Reply) {
    r.Text? && r.text != ""
  }

  /** The prompts a strategy sends, by purpose; their wording is left out. */
  datatype Prompt = TranslateWord(word: string) | DefineWord(subject: string)

  /** The dictionary `generate_definition` returns: Mandarin and Cantonese add
      a `pronounce_word` key, English and Sichuanese have only the two fields. */
  datatype Definition = Definition(definition: string, phonetic: string, pronounceWord: Option<string>)

  /** A `generate_definition` call: its result and the prompts it sent, in order. */
  datatype DefinitionRun = DefinitionRun(result: Definition, prompts: seq<Prompt>)

  /** The all-empty dictionary returned after an invalid reply or an exception. */
  function EmptyDefinition(s: Strategy): Definition {
    Definition("", "", if s.Translates() then Some("") else None)
  }

  /** The word the definition prompt asks about, once the translation reply
      (if any) is in: a Chinese word itself; otherwise the stripped usable
      translation, or `""`. */
  function PronounceWord(word: string, translation: Reply): string {
    if IsChinese(word) then word
    else if Usable(translation) then Strip(translation.text)
    else ""
  }

  /** The fields parsed from a usable definition reply, with the pronounce word when the strategy keeps one. */
  function Parsed(s: Strategy, reply: string, pronounce: string): Definition {
    var p := ParseReply(reply, s.Labels());
    Definition(p.definition, p.phonetic, if s.Translates() then Some(pronounce) else None)
  }

  /** `generate_definition(word)`, given the replies to the translation prompt
      and to the definition prompt (each consulted only if that prompt is sent).
      - Mandarin and Cantonese send a translation prompt exactly when the word
        has no CJK ideograph; an exception there abandons the call.
      - Every strategy then sends one definition prompt, about the pronounce
        word for Mandarin and Cantonese and about the word itself otherwise.
      - A usable reply is parsed by the strategy's labels; anything else gives
        the all-empty dictionary, `pronounce_word` included. */
  function GenerateDefinition(s: Strategy, word: string, translation: Reply, definition: Reply): (run: DefinitionRun)
    ensures s.Translates() && !IsChinese(word) ==> |run.prompts| >= 1 && run.prompts[0] == TranslateWord(word)
    ensures s.Translates() && IsChinese(word) ==> run.prompts == [DefineWord(word)]
    ensures !s.Translates() ==> run.prompts == [DefineWord(word)]
    ensures s.Translates() && !IsChinese(word) && translation.Raised? ==>
              run == DefinitionRun(EmptyDefinition(s), [TranslateWord(word)])
    ensures s.Translates() && !IsChinese(word) && !translation.Raised? ==>
              run.prompts == [TranslateWord(word), DefineWord(PronounceWord(word, translation))]
    ensures run.result.pronounceWord.Some? <==> s.Translates()
    ensures !Usable(definition) ==> run.result == EmptyDefinition(s)
    ensures Usable(definition) && !(s.Translates() && !IsChinese(word) && translation.Raised?) ==>
              var lines := Split(Strip(definition.text), '\n');
              && run.result.definition == LastValue(lines, s.Labels(), DefinitionField)
              && run.result.phonetic == LastValue(lines, s.Labels(), PhoneticField)
              && (s.Translates() ==> run.result.pronounceWord == Some(PronounceWord(word, translation)))
  {
    if s.Translates() && !IsChinese(word) && translation.Raised? then
      DefinitionRun(EmptyDefinition(s), [TranslateWord(word)])
    else
      var pronounce := if s.Translates() then PronounceWord(word, translation) else word;
      var prompts := (if s.Translates() && !IsChinese(word) then [TranslateWord(word)] else []) + [DefineWord(pronounce)];
      var result := if Usable(definition) then Parsed(s, definition.text, pronounce) else EmptyDefinition(s);
      DefinitionRun(result, prompts)
  }

  /** Cantonese: the reply is read with the full-width labels 解释： and 粤拼：;
      a Chinese word is its own pronounce word and no translation is asked for. */
  lemma CantoneseDefinition(word: string, translation: Reply, definition: Reply)
    ensures var run := GenerateDefinition(Cantonese, word, translation, definition);
            && (IsChinese(word) ==> run.prompts == [DefineWord(word)])
            && (Usable(definition) && !(!IsChinese(word) && translation.Raised?) ==>
                  var lines := Split(Strip(definition.text), '\n');
                  && run.result.definition == LastValue(lines, Labels("解释：", "粤拼："), DefinitionField)
                  && run.result.phonetic == LastValue(lines, Labels("解释：", "粤拼："), PhoneticField))
            && (!Usable(definition) ==> run.result == Definition("", "", Some("")))
  {
  }

  /** Sichuanese: one prompt about the word itself whatever the translation
      reply, the labels 解释： and 音标：, and no `pronounce_word` key. */
  lemma SichuaneseDefinition(word: string, t1: Reply, t2: Reply, definition: Reply)
    ensures GenerateDefinition(Sichuanese, word, t1, definition) == GenerateDefinition(Sichuanese, word, t2, definition)
    ensures var run := GenerateDefinition(Sichuanese, word, t1, definition);
            && run.prompts == [DefineWord(word)]
            && run.result.pronounceWord == None
            && (Usable(definition) ==>
                  var lines := Split(Strip(definition.text), '\n');
                  && run.result.definition == LastValue(lines, Labels("解释：", "音标："), DefinitionField)
                  && run.result.phonetic == LastValue(lines, Labels("解释：", "音标："), PhoneticField))
            && (!Usable(definition) ==> run.result == Definition("", "", None))
  {
  }

  /** English: one prompt about the word itself whatever the translation
      reply, the labels `Definition:` and `Phonetic:`, and two keys only. */
  lemma EnglishDefinition(word: string, t1: Reply, t2: Reply, definition: Reply)
    ensures GenerateDefinition(English, word, t1, definition) == GenerateDefinition(English, word, t2, definition)
    ensures var run := GenerateDefinition(English, word, t1, definition);
            && run.prompts == [DefineWord(word)]
            && run.result.pronounceWord == None
            && (Usable(definition) ==>
                  var lines := Split(Strip(definition.text), '\n');
                  && run.result.definition == LastValue(lines, Labels("Definition:", "Phonetic:"), DefinitionField)
                  && run.result.phonetic == LastValue(lines, Labels("Definition:", "Phonetic:"), PhoneticField))
            && (!Usable(definition) ==> run.result == Definition("", "", None))
  {
  }

  /** A definition reply laid out as the prompt asks, with clean values,
      gives back exactly those two values, for every strategy. */
  lemma DefinitionOfFormattedReply(s: Strategy, word: string, translation: Reply, p: ReplyParse.Parsed)
    requires Clean(p.definition, s.Labels()) && Clean(p.phonetic, s.Labels())
    requires !(s.Translates() && !IsChinese(word) && translation.Raised?)
    ensures var run := GenerateDefinition(s, word, translation, Text(FormatReply(s.Labels(), p)));
            run.result.definition == p.definition && run.result.phonetic == p.phonetic
  {
    LabelsInUseWellFormed();
    ParseFormatted(s.Labels(), p);
  }

  /** What `translate_examples` puts at a position: the usable reply, else the sentence itself. */
  function TranslationOrOriginal(example: string, reply: Reply): string {
    if Usable(reply) then reply.text else example
  }

  /** `translate_examples(examples)`, given the reply to the translation
      prompt for each sentence. English returns its input; the others keep
      length and order and fall back to the original sentence wherever the
      reply is unusable or the call raised. */
  function TranslateExamples(s: Strategy, examples: seq<string>, replies: nat -> Reply): (r: seq<string>)
    ensures |r| == |examples|
    ensures s == English ==> r == examples
    ensures s != English ==> forall i :: 0 <= i < |r| ==> r[i] == TranslationOrOriginal(examples[i], replies(i))
    ensures forall i :: 0 <= i < |r| && !Usable(replies(i)) ==> r[i] == examples[i]
  {
    if s == English then examples
    else TranslateFrom(examples, replies, 0)
  }

  /** The loop of `translate_examples` from sentence `k` on, appending one sentence per step. */
  function TranslateFrom(examples: seq<string>, replies: nat -> Reply, k: nat): (r: seq<string>)
    requires k <= |examples|
    ensures |r| == |examples| - k
    ensures forall i :: 0 <= i < |r| ==> r[i] == TranslationOrOriginal(examples[k + i], replies(k + i))
    decreases |examples| - k
  {
    if k == |examples| then []
    else [TranslationOrOriginal(examples[k], replies(k))] + TranslateFrom(examples, replies, k + 1)
  }

  /** `generate_audio(text, word)`: the strategy's own generator, called with
      the strategy's own language code. Each code has a voice in its backend,
      so the outcome depends only on the arguments being non-empty and on
      the external service. */
  function GenerateAudio(s: Strategy, text: string, word: string, env: AudioEnv): (run: AudioRun)
    ensures text == "" || word == "" ==> run == AudioRun(None, None)
    ensures var path := GetAudioPath(AudioDir(env.storageDir), word, s.Code(), text, env.hash);
            && (text != "" && word != "" ==> run.servicePath == Some(path))
            && (run.result.Some? ==> run.result.value == Basename(path))
            && (s.Backend() == Edge ==>
                  (run.result.Some? <==>
                     text != "" && word != "" && env.save(EdgeTts.Voices[s.Code()], text, path) == Saved))
            && (s.Backend() == Dui ==>
                  (run.result.Some? <==>
                     text != "" && word != "" &&
                     DuiTts.SucceedsWithin(DuiTts.RequestUrl(DuiTts.Voices[s.Code()], text, env.quote), env.attempt)))
    ensures run.result.Some? ==> EndsWith(run.result.value, AudioExtension)
    ensures run.result.Some? && '/' !in word ==> run.result == Some(AudioFilename(word, s.Code(), text, env.hash))
  {
    CodeHasVoice(s);
    AudioBasenameNonEmpty(AudioDir(env.storageDir), word, s.Code(), text, env.hash);
    match s.Backend()
    case Edge => EdgeTts.GenerateAudio(text, s.Code(), word, env)
    case Dui => DuiTts.GenerateAudio(text, s.Code(), word, env)
  }

  /** Every strategy's code is already lower-case, contains no `/`, and has a
      voice in the backend its generator uses. */
  lemma CodeHasVoice(s: Strategy)
    ensures Lower(s.Code()) == s.Code() && s.Code() != "" && '/' !in s.Code()
    ensures s.Backend() == Edge ==> EdgeTts.Voice(s.Code()) == EdgeTts.Voices[s.Code()]
    ensures s.Backend() == Dui ==> DuiTts.Voice(s.Code()) == Some(DuiTts.Voices[s.Code()])
  {
    match s
    case English => assert Lower("en") == "en";
    case Mandarin => assert Lower("zh") == "zh";
    case Cantonese => assert Lower("zh-yue") == "zh-yue";
    case Sichuanese => assert Lower("zh-sc") == "zh-sc";
  }
}
