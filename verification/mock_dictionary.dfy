/**
 The mock `DictionaryService` (services/dictionary.py) that the HTTP layer
 serves: fixed definitions and example sentences per language code, and a
 query that gathers them into two dictionaries keyed by the codes as given.
 */
module MockDictionary {
  import opened Wrappers
  import opened PyStr
  import opened PyDict

  datatype MockDefinition = MockDefinition(definition: string, phonetic: string)

  /** `mock_definitions`. */
  const MockDefinitions: map<string, MockDefinition> := map[
    "en" := MockDefinition("A greeting or expression of goodwill", "/həˈloʊ/"),
    "zh-yue" := MockDefinition("打招呼嘅用语", "hēi"),
    "zh" := MockDefinition("用于打招呼的用语", "nǐ hǎo"),
    "zh-sc" := MockDefinition("问候语，打招呼的话", "nī hǎo")
  ]

  /** `mock_examples`. */
  const MockExamples: map<string, string> := map[
    "en" := "Hello, how are you today?",
    "zh-yue" := "喂，你今日点啊？",
    "zh" := "你好，今天怎么样？",
    "zh-sc" := "倷好，今朝个咋样？"
  ]

  /** `generate_definition(word, language)`: the entry of the lower-cased
      code, which does not depend on the word; for any other code a
      definition naming the word and an empty phonetic. */
  function GenerateDefinition(word: string, language: string): (d: MockDefinition)
    ensures Lower(language) in MockDefinitions ==> d == MockDefinitions[Lower(language)]
    ensures Lower(language) !in MockDefinitions ==> d == MockDefinition("Mock definition for " + word, "")
  {
    var code := Lower(language);
    if code in MockDefinitions then MockDefinitions[code] else MockDefinition("Mock definition for " + word, "")
  }

  /** `generate_example(word, language)`: one sentence per code, a sentence
      naming the word for any other code. */
  function GenerateExample(word: string, language: string): (e: string)
    ensures Lower(language) in MockExamples ==> e == MockExamples[Lower(language)]
    ensures Lower(language) !in MockExamples ==> e == "Mock example sentence for " + word
  {
    var code := Lower(language);
    if code in MockExamples then MockExamples[code] else "Mock example sentence for " + word
  }

  /** The known codes, in any case, ignore the word; unknown ones mention it. */
  lemma LookupsIgnoreWordForKnownCodes(w1: string, w2: string, language: string)
    ensures Lower(language) in MockDefinitions ==> GenerateDefinition(w1, language) == GenerateDefinition(w2, language)
    ensures Lower(language) in MockExamples ==> GenerateExample(w1, language) == GenerateExample(w2, language)
    ensures Lower(language) !in MockDefinitions ==> Contains(GenerateDefinition(w1, language).definition, w1)
    ensures Lower(language) !in MockExamples ==> Contains(GenerateExample(w1, language), w1)
    ensures GenerateDefinition(w1, "ZH-YUE") == MockDefinition("打招呼嘅用语", "hēi")
  {
    ContainsInfix("Mock definition for ", w1, "");
    assert "Mock definition for " + w1 + "" == "Mock definition for " + w1;
    ContainsInfix("Mock example sentence for ", w1, "");
    assert "Mock example sentence for " + w1 + "" == "Mock example sentence for " + w1;
    assert Lower("ZH-YUE") == "zh-yue";
  }

  /** `{"definitions": …, "examples": …}`; each example is a single sentence. */
  datatype MockResult = MockResult(definitions: seq<(string, MockDefinition)>, examples: seq<(string, string)>)

  /** `query_word(word, languages)`, without the saved record. */
  function QueryWord(word: string, languages: seq<string>): (r: MockResult)
    ensures UniqueKeys(r.definitions) && UniqueKeys(r.examples)
    ensures forall l :: l in Keys(r.definitions) <==> l in languages
    ensures forall l :: l in Keys(r.examples) <==> l in languages
  {
    var defs := seq(|languages|, i requires 0 <= i < |languages| => GenerateDefinition(word, languages[i]));
    var examples := seq(|languages|, i requires 0 <= i < |languages| => GenerateExample(word, languages[i]));
    FromPairsKeys(languages, defs);
    FromPairsKeys(languages, examples);
    MockResult(FromPairs(languages, defs), FromPairs(languages, examples))
  }

  /** Each requested code, repeated or not and kept in its original case,
      maps to its own code's mock values. */
  lemma QueryWordEntries(word: string, languages: seq<string>, l: string)
    ensures l in languages ==> Get(QueryWord(word, languages).definitions, l) == Some(GenerateDefinition(word, l))
    ensures l in languages ==> Get(QueryWord(word, languages).examples, l) == Some(GenerateExample(word, l))
    ensures l !in languages ==> Get(QueryWord(word, languages).definitions, l) == None
  {
    var defs := seq(|languages|, i requires 0 <= i < |languages| => GenerateDefinition(word, languages[i]));
    var examples := seq(|languages|, i requires 0 <= i < |languages| => GenerateExample(word, languages[i]));
    FromPairsGet(languages, defs, l);
    FromPairsGet(languages, examples, l);
  }
}
