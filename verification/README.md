# zanan-dict backend: per-language dispatch and result assembly

A Dafny model of the dictionary backend of zanan-dict. The backend answers a
word query in several language varieties: English, Mandarin, Cantonese and
Sichuanese. The model covers:

- **`DictionaryService`**: the orchestrator.
  - It picks a language strategy per code, falling back to English.
  - It builds a list of base English example sentences: from the LLM, or from two templates.
  - It builds the per-language definition and example dictionaries.
  - It gathers one audio task per sentence and writes the audio results back into the examples by one running position.
- **The four language strategies.**
  - An optional translation of the word into a Chinese "pronounce word".
  - A line-prefix parse of the LLM's definition reply.
  - Per-sentence translation with a fallback to the original sentence.
  - The strategy's own TTS generator.
- **The script tests** `is_chinese` and `is_english`.
- **The LLM service layer.** The demo service; the defaults the real service falls back to; and the random-word generator, whose class-level recent-words list is explicit state here.
- **TTS dispatch.**
  - The manager's language-to-backend map.
  - The voice tables of both backends.
  - The phrase backend's request URL and its bounded retry loop.
  - The empty-input guards of the generators.
  - The deterministic audio file name.
- **The mock services.** The mock dictionary service and the mock audio generator.

Every LLM reply and every TTS outcome is an oracle. A strategy sees one
`Reply` per call: text, no usable text, or an exception. The real LLM
service sees `Option<string>` plus `json.loads` as a function to
`Option<Json>`. The audio side gets one `AudioEnv`. It holds the storage
directory, Python's `hash`, `urllib.parse.quote`, the Edge library's save,
and the HTTP outcome of each attempt. `asyncio.gather` returns results in
submission order, so every gathered list is an ordered sequence.

Python's insertion-ordered `dict` is an association list (`PyDict`).
Re-assigning a key keeps its position and replaces its value; this is what
makes a repeated language code visible.

Layout: `wrappers.dfy` (Option), `pystr.dfy` (strip, startswith, replace,
split, lower, str(int)), `posix_path.dfy`, `py_seq.dfy`, `py_dict.dfy`,
`language_utils.dfy`, `reply_parse.dfy`, `audio_base.dfy`, `edge_tts.dfy`,
`dui_tts.dfy`, `tts_strategy.dfy`, `strategies.dfy`, `llm_service.dfy`,
`dictionary_service.dfy`, `mock_dictionary.dfy`, `mock_audio.dfy`.

## Model

| member | source | states |
|---|---|---|
| DictionaryService.GetStrategy | zanan-backend/src/services/dictionary_service.py:28-33 | a known lower-cased code gets the strategy with that code; any other code gets English |
| DictionaryService.GetStrategyOfCode | zanan-backend/src/services/dictionary_service.py:54 | every strategy is found again from its own code, and the lookup ignores ASCII case |
| DictionaryService.GenerateBaseExamples | zanan-backend/src/services/dictionary_service.py:79-90 | a usable LLM list gives a prefix of that list; otherwise a prefix of the two formatted templates. The length is `min(count, available)`, and a negative count drops from the end as Python slicing does |
| DictionaryService.ExamplesFor | zanan-backend/src/services/dictionary_service.py:124-131 | an `en` code in any case, or an unknown code, gets the base list itself; any other code gets its strategy's translation; the length is always kept |
| DictionaryService.GenerateExamples | zanan-backend/src/services/dictionary_service.py:104-112 | same length as the base examples; each position with an unusable reply keeps the base sentence; English and unknown codes get the base list unchanged; every other code gets its strategy's `translate_examples` of the base list |
| DictionaryService.GenerateDefinition | zanan-backend/src/services/dictionary_service.py:66-67 | a code whose lower-case form is registered gets that strategy's definition run; any other code gets the English strategy's; `pronounce_word` is present exactly for codes that lower-case to zh or zh-yue |
| DictionaryService.AudioUrl | zanan-backend/src/services/dictionary_service.py:153-168 | the URL stored for a sentence is `""` or ends in `.mp3` |
| DictionaryService.VoicedMp3 | zanan-backend/src/services/dictionary_service.py:168 | every URL the query's audio tasks leave behind, `audio_urls[k] or ""`, is `""` or an mp3 name |
| DictionaryService.UrlsOf | zanan-backend/src/services/dictionary_service.py:151-154 | one audio result per sentence of a language, in sentence order |
| DictionaryService.TaskUrls | zanan-backend/src/services/dictionary_service.py:148-162 | the gathered results are the per-language result lists one after another, as many as all the sentences together; when every URL is `""` or an mp3 name, so is each gathered result |
| DictionaryService.TaskUrlsSubmitted | zanan-backend/src/services/dictionary_service.py:148-162 | sentence `j` of the `i`-th zipped (code, list) pair is submitted at position `Offset(i) + j`, and the gathered result there is that sentence's audio in that code |
| DictionaryService.Fill | zanan-backend/src/services/dictionary_service.py:165-170 | the write-back keeps every key, list length and sentence text; the URLs it stores, read list by list, are exactly the first gathered results, in order |
| DictionaryService.FillPositioned | zanan-backend/src/services/dictionary_service.py:165-170 | the running index: entry `j` of the dictionary's `i`-th list gets gathered result `Offset(i) + j`, the offsets taken over the dictionary's own lists |
| DictionaryService.FillOwnTasks | zanan-backend/src/services/dictionary_service.py:148-170 | when the tasks come from the very lists being filled, in the same order, every sentence gets the audio of its own text |
| DictionaryService.AssembleExamples | zanan-backend/src/services/dictionary_service.py:148-170 | as written: keys and sentences come from the dictionary (last list per code wins). Entry `j` of the dictionary's `i`-th list carries gathered result `Offset(i) + j`, the offsets over the dictionary's lists while the results follow all zipped pairs; read in order, the URLs are a prefix of the gathered results. With an mp3-only audio map every URL is `""` or an mp3 name |
| DictionaryService.DistinctLanguagesAlign | zanan-backend/src/services/dictionary_service.py:151-170 | with pairwise-distinct codes, the assembly is the zipped pairs with every sentence carrying the audio of its own text in its own code |
| DictionaryService.RepeatedLanguageMisaligns | zanan-backend/src/services/dictionary_service.py:148-170 | a code given twice keeps its second list, and entry `j` of it carries the audio of the first list's sentence `j` |
| DictionaryService.RepeatedCantoneseExample | zanan-backend/src/services/dictionary_service.py:148-170 | concrete counterexample: entry `"BB"` carries `hi_zh-yue_1.mp3`, the file made for `"A"`, while `"BB"`'s own audio is `hi_zh-yue_2.mp3` |
| DictionaryService.AssembleExamplesKeyed | zanan-backend/src/services/dictionary_service.py:148-170 | corrected assembly: the examples are the dictionary built from the pairs, each sentence labelled with its own audio |
| DictionaryService.Definitions | zanan-backend/src/services/dictionary_service.py:119-134 | one definition per requested code, in request order, each from that code's strategy |
| DictionaryService.ExampleLists | zanan-backend/src/services/dictionary_service.py:124-135 | one example list per requested code, in request order |
| DictionaryService.QueryWord | zanan-backend/src/services/dictionary_service.py:114-178 | the response echoes word and languages. Both dictionaries have unique keys, and exactly the requested codes. Every audio URL is `""` or an mp3 name |
| DictionaryService.QueryWordEntries | zanan-backend/src/services/dictionary_service.py:144-159 | each requested code maps to the definition and the sentences of its last occurrence in the request |
| DictionaryService.QueryWordAligned | zanan-backend/src/services/dictionary_service.py:144-170 | with distinct codes both dictionaries are the zipped pairs in request order, and every example carries its own audio |
| DictionaryService.QueryWordKeyed | zanan-backend/src/services/dictionary_service.py:114-178 | the corrected query: same definitions, and every example labelled with the audio of its own text for any code list |
| Strategies.GenerateDefinition | zanan-backend/src/services/strategies/mandarin.py:25-68 | Mandarin/Cantonese ask for a translation exactly when the word has no ideograph, and an exception there gives the all-empty result. The definition prompt is about the pronounce word (or, for English/Sichuanese, the word). A usable reply yields the last labelled line of each field; otherwise every field is `""`, `pronounce_word` included |
| Strategies.CantoneseDefinition | zanan-backend/src/services/strategies/cantonese.py:25-69 | a Chinese word is its own pronounce word and is the only prompt; the reply is read with the full-width labels 解释： and 粤拼：; an unusable reply gives every field `""` |
| Strategies.SichuaneseDefinition | zanan-backend/src/services/strategies/sichuan.py:24-56 | the translation reply changes nothing; a single definition prompt about the word itself; labels 解释： and 音标：; the result has no `pronounce_word` |
| Strategies.EnglishDefinition | zanan-backend/src/services/strategies/english.py:24-56 | the translation reply changes nothing; a single prompt about the word; labels `Definition:` and `Phonetic:`; no `pronounce_word`; an unusable reply gives both `""` |
| Strategies.DefinitionOfFormattedReply | zanan-backend/src/services/strategies/mandarin.py:48-63 | a reply laid out as the prompt asks, with clean values, gives back exactly those values, for every strategy |
| Strategies.TranslateExamples | zanan-backend/src/services/strategies/mandarin.py:70-97 | same length and order; position i is the usable reply i, else sentence i; English returns its input unchanged |
| Strategies.TranslateFrom | zanan-backend/src/services/strategies/cantonese.py:82-98 | the loop from sentence k on appends one sentence per position, the reply or the original |
| Strategies.GenerateAudio | zanan-backend/src/services/strategies/language_strategy.py:43 | calls the strategy's own generator with its own code. The result is present exactly when text and word are non-empty and the backend succeeds with that code's voice, and it is then the mp3 file name |
| Strategies.CodeHasVoice | zanan-backend/src/services/strategies/english.py:12 | every strategy code is lower-case, non-empty, slash-free, and has a voice in its own backend |
| ReplyParse.ParseReply | zanan-backend/src/services/strategies/mandarin.py:53-61 | each field is the label-removed, stripped text of the last line that sets it (`elif` for the phonetic label), else `""` |
| ReplyParse.ScanIsLastMatch | zanan-backend/src/services/strategies/english.py:42-49 | the in-order scan equals the reference meaning "last line that sets the field" |
| ReplyParse.LastSetter | zanan-backend/src/services/strategies/sichuan.py:45-49 | the chosen line sets the field and no later line does; none means no line does |
| ReplyParse.SeparateLabelsSet | zanan-backend/src/services/strategies/cantonese.py:58-62 | with labels that are not prefixes of each other, the `elif` never hides a phonetic line |
| ReplyParse.LabelsInUseSeparate | zanan-backend/src/services/strategies/cantonese.py:59-61 | the three label pairs in use are separate |
| ReplyParse.ParseFormatted | zanan-backend/src/services/strategies/english.py:36-49 | parsing the two-line layout the prompt asks for returns the values written into it |
| ReplyParse.UnlabelledReply | zanan-backend/src/services/strategies/sichuan.py:42-49 | a reply without labelled lines gives both fields `""` |
| LanguageUtils.IsChinese | zanan-backend/src/services/utils/language_utils.py:21-22 | true iff some character lies in U+4E00..U+9FFF |
| LanguageUtils.IsEnglish | zanan-backend/src/services/utils/language_utils.py:35-36 | true iff the text is non-empty and every character is an ASCII letter or Python whitespace |
| LanguageUtils.OnlyLettersAndSpace | zanan-backend/src/services/utils/language_utils.py:35-36 | every character is an ASCII letter or Python whitespace |
| LanguageUtils.ChineseIsNotEnglish | zanan-backend/src/services/utils/language_utils.py:21-36 | a Chinese text is never English |
| LanguageUtils.ScriptExamples | zanan-backend/src/services/utils/language_utils.py:21-36 | the empty text is neither Chinese nor English; sample texts classify as expected |
| LlmService.DemoIsDefaultWithRelations | zanan-backend/src/services/llms/llm_service.py:47-53 | the demo dictionary is the real default plus two synonyms and two antonyms derived from the word |
| LlmService.DemoExamples | zanan-backend/src/services/llms/llm_service.py:65-72 | a prefix of the five templates, `min(count, 5)` long (Python slicing for negative counts), each sentence containing the word |
| LlmService.GenerateWordDefinition | zanan-backend/src/services/llms/llm_service.py:91-113 | a missing reply or invalid JSON gives the default dictionary. A non-object raises. An object gives each field or its default |
| LlmService.FullReplyPassesThrough | zanan-backend/src/services/llms/llm_service.py:96-102 | an object with all five keys passes through unchanged |
| LlmService.GenerateExamples | zanan-backend/src/services/llms/llm_service.py:125-140 | the `examples` field of a parsed object, else `[]` |
| LlmService.Remember | zanan-backend/src/services/llms/llm_service.py:204-207 | the word is appended last; the oldest entry is dropped only on overflow past 50 |
| LlmService.RememberBounded | zanan-backend/src/services/llms/llm_service.py:171-172 | the list never exceeds 50 entries and loses at most its oldest one |
| LlmService.Candidate | zanan-backend/src/services/llms/llm_service.py:193-201 | an attempt yields a word exactly when the reply is a JSON object whose `word` is not recent |
| LlmService.GenerateRandomWord | zanan-backend/src/services/llms/llm_service.py:190-214 | 1 to 3 calls. A returned value was not recent and is last in the new list. For a JSON object without `word` that value is JSON `null`, the `None` that `.get` gives: it is remembered and returned, and a Python caller cannot tell it from failure. The model's `None` result means all 3 attempts failed, and then the list is unchanged |
| TtsStrategy.GetTtsGenerator | zanan-backend/src/services/tts/tts_strategy.py:40 | the phrase backend exactly for codes that lower-case to zh-sc; Edge for everything else, unknown codes included |
| TtsStrategy.RoutingTable | zanan-backend/src/services/tts/tts_strategy.py:24-29 | en, zh and zh-yue route to Edge; zh-sc in any case routes to the phrase backend |
| TtsStrategy.GenerateAudio | zanan-backend/src/services/tts/tts_strategy.py:55-56 | forwards text, language and word unchanged to the chosen generator and returns its run |
| TtsStrategy.ManagerMatchesStrategies | zanan-backend/src/services/tts/tts_strategy.py:26 | the manager and the strategies agree on every language except Mandarin |
| EdgeTts.Voice | zanan-backend/src/services/tts/tts_service.py:37 | the voice of the lower-cased code, the English voice when unknown |
| EdgeTts.VoiceTable | zanan-backend/src/services/tts/tts_service.py:15-20 | the configured voices; Sichuanese uses zh-CN-YunxiNeural |
| EdgeTts.GenerateSpeech | zanan-backend/src/services/tts/tts_service.py:35-51 | a successful save returns the output's basename; a failure returns None; a cancellation propagates |
| EdgeTts.GenerateAudio | zanan-backend/src/services/tts/edge_tts_generator.py:23-58 | empty arguments return None without a call. Otherwise the service is called with the audio path, and the result is present iff the save succeeds; it is then the file's basename |
| DuiTts.Voice | zanan-backend/src/services/tts/dui_tts_service.py:43 | a voice exactly for the lower-cased codes zh-sc, zh-yue and zh |
| DuiTts.VoiceTable | zanan-backend/src/services/tts/dui_tts_service.py:16-20 | the configured voice ids; English is unsupported |
| DuiTts.RequestUrl | zanan-backend/src/services/tts/dui_tts_service.py:49-56 | base URL, `?`, then the five `k=v` pairs in order, which split back out at `&` |
| DuiTts.QueryRoundTrip | zanan-backend/src/services/tts/dui_tts_service.py:49-56 | joining the parameters with `&` and splitting again gives them back |
| DuiTts.Retry | zanan-backend/src/services/tts/dui_tts_service.py:59-80 | at most 3 attempts; every attempt before the last was retryable; one sleep between consecutive attempts; the last attempt decides the end |
| DuiTts.RetrySucceeds | zanan-backend/src/services/tts/dui_tts_service.py:59-83 | the loop succeeds iff some attempt within the bound gets 200 after only retryable failures; sleeps = attempts - 1 |
| DuiTts.GenerateSpeech | zanan-backend/src/services/tts/dui_tts_service.py:29-83 | an unsupported language returns None with no request. Success returns the basename, and exhaustion returns None after 3 attempts and 2 sleeps |
| DuiTts.GenerateSpeechLoop | zanan-backend/src/services/tts/dui_tts_service.py:59-83 | the `for` loop as written computes the same run as the functional model |
| DuiTts.GenerateAudio | zanan-backend/src/services/tts/dui_tts_generator.py:22-57 | empty arguments return None without a call; otherwise a result exactly when the language has a voice and a request succeeds within the bound |
| AudioBase.FilenameShape | zanan-backend/src/utils/audio_base.py:49 | the file name ends in `.mp3`, even though the phrase backend requests wav |
| AudioBase.GetAudioPath | zanan-backend/src/utils/audio_base.py:35-50 | the name joined under `storage/audio`. An absolute word drops the directory, and a slash-free word and language make the basename the name |
| AudioBase.GeneratorRun | zanan-backend/src/services/tts/edge_tts_generator.py:36-58 | the guard-call-check shape both generators share |
| MockAudio.GenerateAudio | zanan-backend/src/utils/audio.py:12-15 | `/audio/` followed by a slash-free mp3 name, the audio file name itself for slash-free arguments; never None |
| MockDictionary.GenerateDefinition | zanan-backend/src/services/dictionary.py:30-36 | the entry of the lower-cased code, or the word-naming default with an empty phonetic |
| MockDictionary.GenerateExample | zanan-backend/src/services/dictionary.py:49-55 | the sentence of the lower-cased code, or the word-naming default |
| MockDictionary.LookupsIgnoreWordForKnownCodes | zanan-backend/src/services/dictionary.py:30-55 | known codes ignore the word; unknown ones mention it |
| MockDictionary.QueryWord | zanan-backend/src/services/dictionary.py:70-84 | both dictionaries have unique keys, exactly the requested codes |
| MockDictionary.QueryWordEntries | zanan-backend/src/services/dictionary.py:78-79 | each requested code maps to its own mock value; others are absent |
| PyStr.Strip | zanan-backend/src/services/strategies/mandarin.py:46 | `strip()` removes whitespace only from the two ends |
| PyStr.Split | zanan-backend/src/services/strategies/mandarin.py:53 | `split('\n')` gives separator-free parts whose join is the input |
| PyStr.SplitJoin | zanan-backend/src/services/strategies/english.py:41 | splitting a join of separator-free parts gives the parts |
| PyStr.RemoveAllAbsent | zanan-backend/src/services/strategies/mandarin.py:59 | `replace(label, "")` is the identity when the label does not occur |
| PyDict.FromPairsKeys | zanan-backend/src/services/dictionary_service.py:144-145 | the dictionary built by assignment has unique keys and exactly the given keys |
| PyDict.FromPairsGet | zanan-backend/src/services/dictionary_service.py:144-145 | each key holds the value of its last occurrence |
| PyDict.Store | zanan-backend/src/services/dictionary_service.py:159 | `d[k] = v` updates `k` alone, keeping positions; a new key goes last |
| PySeq.SlicePrefix | zanan-backend/src/services/dictionary_service.py:84 | `s[:stop]` with Python's clamping and negative stops |
| PosixPath.BasenameOfJoin | zanan-backend/src/services/tts/tts_service.py:46 | the basename of a slash-free name joined under any directory is the name |

## Left out

- Network and I/O are not modelled. The SiliconFlow client, the aiohttp session and the edge_tts library become oracle results. File writes, `os.makedirs` and `save_query_record` are dropped.
- A failed query-record write is not modelled. The record's file name embeds the word (dictionary_service.py:203-205), so a word containing `/` makes the `open` fail and `query_word` raise after all audio was generated; the model always returns the response.
- `json.loads` is a parameter. The JSON value type has integral numbers only, and an object is a map, so a duplicated key keeps its last value implicitly.
- Python's per-process `hash()` and `urllib.parse.quote` (RFC 3986 section 2.1 percent-encoding) are uninterpreted function parameters.
- asyncio is sequential in the model. `gather` keeps submission order, task interleaving is ignored, and sleeps are counted rather than timed.
- The query uses a single audio environment. Two tasks with the same arguments are assumed to get the same outcome, because the Edge and phrase backends are keyed only on their arguments here. The assembly is therefore stated for any map from (code, sentence) to URL, and the query uses `Voiced(word, env)`, the URL each task leaves in that environment.
- Constructor wiring is left out, because as written it cannot run:
  - the strategies build generators without the `storage_dir` argument;
  - `DuiTTSGenerator.__init__` calls the base initializer with no arguments;
  - the strategies import a non-existent `..audio_base`.
  The model gives every generator the storage directory of its environment.
- Prompt text, the timestamp in the response, the HTTP layer, CORS, the request schemas and `print` logging are not modelled.
- DictionaryService.GenerateBaseExamples: a list reply is taken to hold strings. Other item types in the LLM's list are not distinguished.
- LlmService.GenerateRandomWord: the membership test uses structural equality of JSON values. Python's `True == 1` cross-type equality is not modelled.
- PyStr.Lower: `str.lower()` is modelled for ASCII letters only. Every comparison it feeds is against an ASCII language code.
- Strategies.GenerateDefinition: an exception during the definition request or the parse is one `Raised` reply. A raise inside the parsing loop cannot happen for string replies.
- The `siliconflow.py` client, `config.py` and the API controllers are not part of this model.

## Findings

| source | as written | input that shows it | evidently intended | confidence | as-written member | corrected member |
|---|---|---|---|---|---|---|
| zanan-backend/src/services/dictionary_service.py:148-170 | `results['examples'][lang]` is overwritten for a repeated code, but an audio task is appended for every listed code; the URLs are then handed out by one index over the dictionary's values | languages `["zh-yue", "zh-yue"]` with one base sentence translated first to "A", then to "BB": the single Cantonese entry is "BB" with the audio file made for "A" | every example carries the audio generated from its own text | not executed | DictionaryService.RepeatedCantoneseExample | DictionaryService.AssembleExamplesKeyed |
