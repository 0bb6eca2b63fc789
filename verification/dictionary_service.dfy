/**
 `DictionaryService` (services/dictionary_service.py): the orchestrator that
 picks a strategy per language, builds the shared base examples, assembles
 the per-language definition and example dictionaries, and writes the
 audio results back into the examples by position.

 `asyncio.gather` returns results in submission order, so every gathered
 list is an ordered sequence here; the LLM replies and the audio
 environment are oracles.
 */
module DictionaryService {
  import opened Wrappers
  import opened PyStr
  import opened PySeq
  import opened PyDict
  import opened AudioBase
  import S = Strategies
  import EdgeTts

  /** `language_strategies`. */
  const LanguageStrategies: map<string, S.Strategy> := map[
    "en" := S.English,
    "zh-yue" := S.Cantonese,
    "zh" := S.Mandarin,
    "zh-sc" := S.Sichuanese
  ]

  /** `get_strategy(language)`: the lower-cased code looked up, English when unknown. */
  function GetStrategy(language: string): (s: S.Strategy)
    ensures Lower(language) in LanguageStrategies ==> s.Code() == Lower(language)
    ensures Lower(language) !in LanguageStrategies ==> s == S.English
  {
    var code := Lower(language);
    if code in LanguageStrategies then LanguageStrategies[code] else S.English
  }

  /** Each strategy is found again from its own code, in either case, and
      the lookup ignores ASCII case. */
  lemma GetStrategyOfCode(s: S.Strategy, language: string)
    ensures GetStrategy(s.Code()) == s
    ensures GetStrategy(language) == GetStrategy(Lower(language))
  {
    S.CodeHasVoice(s);
    LowerIdempotent(language);
  }

  /** `default_examples`, formatted with the word. */
  function DefaultExamples(word: string): seq<string> {
    ["The word " + word + " is useful.", "I like the word " + word + "."]
  }

  /** What awaiting `llm_service.generate_examples` gives the orchestrator:
      a list of sentences, some other value, or an exception. */
  datatype BaseReply = SentenceList(items: seq<string>) | OtherValue | RaisedError

  /** `response and isinstance(response, list)`. */
  predicate UsableList(reply: BaseReply) {
    reply.SentenceList? && |reply.items| > 0
  }

  /** `generate_base_examples(word, count)`: a prefix of the LLM's non-empty
      list, or else a prefix of the two formatted templates; `[:count]` in
      both cases, so a negative count drops sentences from the end. */
  function GenerateBaseExamples(word: string, count: int, reply: BaseReply): (r: seq<string>)
    ensures UsableList(reply) ==> |r| <= |reply.items| && r == reply.items[..|r|]
    ensures !UsableList(reply) ==> |r| <= 2 && r == DefaultExamples(word)[..|r|]
    ensures 0 <= count ==> |r| == Min(count, if UsableList(reply) then |reply.items| else 2)
    ensures count < 0 ==> |r| == Max(0, count + if UsableList(reply) then |reply.items| else 2)
  {
    if UsableList(reply) then SlicePrefix(reply.items, count)
    else SlicePrefix(DefaultExamples(word), count)
  }

  function Min(a: int, b: int): int { if a < b then a else b }
  function Max(a: int, b: int): int { if a < b then b else a }

  /** `language.lower() == "en"`. */
  predicate IsEnglishCode(language: string) {
    Lower(language) == "en"
  }

  /** The example list a language gets from the base examples: the base
      itself for English, else its strategy's translation. */
  function ExamplesFor(language: string, base: seq<string>, replies: nat -> S.Reply): (r: seq<string>)
    ensures |r| == |base|
    ensures IsEnglishCode(language) || Lower(language) !in LanguageStrategies ==> r == base
    ensures !IsEnglishCode(language) ==> r == S.TranslateExamples(GetStrategy(language), base, replies)
  {
    if IsEnglishCode(language) then base
    else S.TranslateExamples(GetStrategy(language), base, replies)
  }

  /** `generate_examples(word, language, count)`. */
  function GenerateExamples(word: string, language: string, count: int, reply: BaseReply, replies: nat -> S.Reply): (r: seq<string>)
    ensures |r| == |GenerateBaseExamples(word, count, reply)|
    ensures forall i :: 0 <= i < |r| && !S.Usable(replies(i)) ==> r[i] == GenerateBaseExamples(word, count, reply)[i]
    ensures IsEnglishCode(language) || Lower(language) !in LanguageStrategies ==> r == GenerateBaseExamples(word, count, reply)
    ensures !IsEnglishCode(language) ==> r == S.TranslateExamples(GetStrategy(language), GenerateBaseExamples(word, count, reply), replies)
  {
    ExamplesFor(language, GenerateBaseExamples(word, count, reply), replies)
  }

  /** `generate_definition(word, language)`: the strategy's definition;
      only Mandarin and Cantonese codes produce a `pronounce_word`. */
  function GenerateDefinition(word: string, language: string, translation: S.Reply, definition: S.Reply): (r: S.DefinitionRun)
    ensures r.result.pronounceWord.Some? <==> Lower(language) == "zh" || Lower(language) == "zh-yue"
    ensures Lower(language) in LanguageStrategies ==>
              r == S.GenerateDefinition(LanguageStrategies[Lower(language)], word, translation, definition)
    ensures Lower(language) !in LanguageStrategies ==> r == S.GenerateDefinition(S.English, word, translation, definition)
  {
    S.GenerateDefinition(GetStrategy(language), word, translation, definition)
  }

  /** One example entry of the response: `{'text': …, 'audio_url': …}`. */
  datatype ExampleEntry = ExampleEntry(text: string, audioUrl: string)

  /** `results`: both dictionaries keyed by language code, in insertion order. */
  datatype Results = Results(definitions: seq<(string, S.Definition)>, examples: seq<(string, seq<ExampleEntry>)>)

  /** `response_data` without its timestamp. */
  datatype QueryResponse = QueryResponse(word: string, languages: seq<string>, results: Results)

  /** Every LLM reply a query consumes: the base-example list, and per
      language index the translation reply, the definition reply and the
      reply for each sentence. */
  datatype QueryReplies = QueryReplies(
    base: BaseReply,
    translation: nat -> S.Reply,
    definition: nat -> S.Reply,
    sentence: nat -> nat -> S.Reply)

  /** `audio_urls[k] or ""`. */
  function UrlOrEmpty(r: Option<string>): string {
    if r.Some? then r.value else ""
  }

  /** The URL one audio task leaves in its entry: the strategy of `language`
      reading `text` aloud. */
  function AudioUrl(language: string, text: string, word: string, env: AudioEnv): (url: string)
    ensures url == "" || EndsWith(url, AudioExtension)
  {
    UrlOrEmpty(S.GenerateAudio(GetStrategy(language), text, word, env).result)
  }

  /** The audio tasks of one query as a map from (language, sentence) to the
      URL the task leaves. The assembly below is stated for any such map. */
  function Voiced(word: string, env: AudioEnv): (audio: (string, string) -> string)
    ensures forall l, t :: audio(l, t) == AudioUrl(l, t, word, env)
  {
    (l: string, t: string) => AudioUrl(l, t, word, env)
  }

  /** Every URL is empty or names an `.mp3` file. */
  ghost predicate Mp3Urls(audio: (string, string) -> string) {
    forall l, t :: audio(l, t) == "" || EndsWith(audio(l, t), AudioExtension)
  }

  /** Every URL of the list is empty or names an `.mp3` file. */
  predicate Mp3Seq(urls: seq<string>) {
    forall k :: 0 <= k < |urls| ==> urls[k] == "" || EndsWith(urls[k], AudioExtension)
  }

  /** A flattened list of URLs is all `.mp3` only if each inner list is. */
  lemma {:induction false} FlattenMp3(xss: seq<seq<string>>)
    ensures Mp3Seq(Flatten(xss)) ==> forall i :: 0 <= i < |xss| ==> Mp3Seq(xss[i])
  {
    if |xss| > 0 && Mp3Seq(Flatten(xss)) {
      var f := Flatten(xss);
      assert f == xss[0] + Flatten(xss[1..]);
      assert Mp3Seq(xss[0]) by {
        forall k | 0 <= k < |xss[0]| ensures xss[0][k] == "" || EndsWith(xss[0][k], AudioExtension) {
          assert f[k] == xss[0][k];
        }
      }
      assert Mp3Seq(Flatten(xss[1..])) by {
        forall k | 0 <= k < |Flatten(xss[1..])| ensures Flatten(xss[1..])[k] == "" || EndsWith(Flatten(xss[1..])[k], AudioExtension) {
          assert f[|xss[0]| + k] == Flatten(xss[1..])[k];
        }
      }
      FlattenMp3(xss[1..]);
      forall i | 0 < i < |xss| ensures Mp3Seq(xss[i]) {
        assert xss[i] == xss[1..][i - 1];
      }
    }
  }

  lemma VoicedMp3(word: string, env: AudioEnv)
    ensures Mp3Urls(Voiced(word, env))
  {
    forall l, t ensures Voiced(word, env)(l, t) == "" || EndsWith(Voiced(word, env)(l, t), AudioExtension) {
      assert Voiced(word, env)(l, t) == AudioUrl(l, t, word, env);
    }
  }

  /** The audio results of one language's sentences, in order. */
  function UrlsOf(language: string, texts: seq<string>, audio: (string, string) -> string): (r: seq<string>)
    ensures |r| == |texts|
    ensures forall j :: 0 <= j < |r| ==> r[j] == audio(language, texts[j])
  {
    seq(|texts|, j requires 0 <= j < |texts| => audio(language, texts[j]))
  }

  /** The audio results of each pair's sentences, pair by pair. */
  function UrlLists(pairs: seq<(string, seq<string>)>, audio: (string, string) -> string): (r: seq<seq<string>>)
    ensures |r| == |pairs|
    ensures forall i :: 0 <= i < |r| ==> r[i] == UrlsOf(pairs[i].0, pairs[i].1, audio)
  {
    seq(|pairs|, i requires 0 <= i < |pairs| => UrlsOf(pairs[i].0, pairs[i].1, audio))
  }

  /** The gathered `audio_urls` for tasks created language by language from
      (language, sentence list) pairs, in that order: one `gather` over all
      the tasks, so the per-language results follow each other. */
  function TaskUrls(pairs: seq<(string, seq<string>)>, audio: (string, string) -> string): (r: seq<string>)
    ensures |r| == SumLengths(Values(pairs))
    ensures r == Flatten(UrlLists(pairs, audio))
    ensures Mp3Urls(audio) ==> forall k :: 0 <= k < |r| ==> r[k] == "" || EndsWith(r[k], AudioExtension)
  {
    if |pairs| == 0 then []
    else
      assert Values(pairs)[1..] == Values(pairs[1..]);
      assert UrlLists(pairs, audio)[1..] == UrlLists(pairs[1..], audio);
      UrlsOf(pairs[0].0, pairs[0].1, audio) + TaskUrls(pairs[1..], audio)
  }

  /** Each pair's URL list is as long as its sentence list. */
  lemma UrlListsShape(pairs: seq<(string, seq<string>)>, audio: (string, string) -> string)
    ensures |UrlLists(pairs, audio)| == |Values(pairs)|
    ensures forall k :: 0 <= k < |pairs| ==> |UrlLists(pairs, audio)[k]| == |Values(pairs)[k]|
  {
  }

  /** Sentence `j` of pair `i` was submitted at position `Offset(i) + j`
      of `urls`, and the result there is the audio of that sentence. */
  predicate Submitted(urls: seq<string>, pairs: seq<(string, seq<string>)>, audio: (string, string) -> string) {
    (forall i :: 0 <= i < |pairs| ==> Offset(Values(pairs), i) + |pairs[i].1| <= |urls|) &&
    (forall i, j :: 0 <= i < |pairs| && 0 <= j < |pairs[i].1| ==>
       urls[Offset(Values(pairs), i) + j] == audio(pairs[i].0, pairs[i].1[j]))
  }

  /** The per-pair URL lists, flattened, hold each sentence's audio at its offset. */
  lemma FlattenedSubmitted(urls: seq<string>, pairs: seq<(string, seq<string>)>, audio: (string, string) -> string)
    requires urls == Flatten(UrlLists(pairs, audio))
    ensures Submitted(urls, pairs, audio)
  {
    UrlListsShape(pairs, audio);
    forall i | 0 <= i < |pairs| ensures Offset(Values(pairs), i) + |pairs[i].1| <= |urls| {
      OffsetByLengths(UrlLists(pairs, audio), Values(pairs), i);
      OffsetBound(UrlLists(pairs, audio), i);
    }
    forall i, j | 0 <= i < |pairs| && 0 <= j < |pairs[i].1|
      ensures urls[Offset(Values(pairs), i) + j] == audio(pairs[i].0, pairs[i].1[j])
    {
      FlattenIndexShaped(UrlLists(pairs, audio), Values(pairs), i, j);
    }
  }

  /** The gathered results line up with the submitted tasks. */
  lemma TaskUrlsSubmitted(pairs: seq<(string, seq<string>)>, audio: (string, string) -> string)
    ensures Submitted(TaskUrls(pairs, audio), pairs, audio)
  {
    FlattenedSubmitted(TaskUrls(pairs, audio), pairs, audio);
  }

  /** The URLs an example list carries, in order. */
  function EntryUrls(entries: seq<ExampleEntry>): (r: seq<string>)
    ensures |r| == |entries|
    ensures forall j :: 0 <= j < |r| ==> r[j] == entries[j].audioUrl
  {
    seq(|entries|, j requires 0 <= j < |entries| => entries[j].audioUrl)
  }

  /** The URLs each filled list carries, list by list. */
  function FilledUrls(r: seq<(string, seq<ExampleEntry>)>): (u: seq<seq<string>>)
    ensures |u| == |r|
    ensures forall i :: 0 <= i < |u| ==> u[i] == EntryUrls(r[i].1)
  {
    seq(|r|, i requires 0 <= i < |r| => EntryUrls(r[i].1))
  }

  /** The fill loop: walk the dictionary's lists in order, giving each
      sentence the next URL. Read off list by list, the URLs handed out are
      exactly the first `SumLengths` gathered results, in order. */
  function Fill(d: seq<(string, seq<string>)>, urls: seq<string>): (r: seq<(string, seq<ExampleEntry>)>)
    requires SumLengths(Values(d)) <= |urls|
    ensures |r| == |d|
    ensures forall i :: 0 <= i < |d| ==> r[i].0 == d[i].0 && |r[i].1| == |d[i].1|
    ensures forall i, j :: 0 <= i < |d| && 0 <= j < |d[i].1| ==> r[i].1[j].text == d[i].1[j]
    ensures Flatten(FilledUrls(r)) == urls[..SumLengths(Values(d))]
  {
    if |d| == 0 then []
    else
      assert Values(d)[1..] == Values(d[1..]);
      var n := |d[0].1|;
      var head := seq(n, j requires 0 <= j < n => ExampleEntry(d[0].1[j], urls[j]));
      var tail := Fill(d[1..], urls[n..]);
      var r := [(d[0].0, head)] + tail;
      assert FilledUrls(r)[1..] == FilledUrls(tail);
      assert EntryUrls(head) == urls[..n];
      assert urls[..SumLengths(Values(d))] == urls[..n] + urls[n..][..SumLengths(Values(d[1..]))];
      r
  }

  /** Lists shaped like `d` whose URLs, read in order, are a prefix of
      `urls`: entry `j` of list `i` carries the URL at `Offset(i) + j`. */
  lemma FilledAt(r: seq<(string, seq<ExampleEntry>)>, d: seq<(string, seq<string>)>, urls: seq<string>, i: nat, j: nat)
    requires |r| == |d|
    requires forall k :: 0 <= k < |r| ==> |r[k].1| == |d[k].1|
    requires SumLengths(Values(d)) <= |urls| && Flatten(FilledUrls(r)) == urls[..SumLengths(Values(d))]
    requires i < |d| && j < |d[i].1|
    ensures Offset(Values(d), i) + j < |urls|
    ensures r[i].1[j].audioUrl == urls[Offset(Values(d), i) + j]
  {
    FlattenPrefixAt(FilledUrls(r), Values(d), urls, i, j);
  }

  /** Entry `j` of list `i` of `r` carries the URL at position `Offset(i) + j`
      of `urls`, the offsets taken over the lists of `d`. */
  predicate Positioned(r: seq<(string, seq<ExampleEntry>)>, d: seq<(string, seq<string>)>, urls: seq<string>)
    requires |r| == |d|
  {
    (forall i :: 0 <= i < |r| ==> Offset(Values(d), i) + |r[i].1| <= |urls|) &&
    (forall i, j :: 0 <= i < |r| && 0 <= j < |r[i].1| ==> r[i].1[j].audioUrl == urls[Offset(Values(d), i) + j])
  }

  /** `FilledAt` for every position at once. */
  lemma FilledPositions(r: seq<(string, seq<ExampleEntry>)>, d: seq<(string, seq<string>)>, urls: seq<string>)
    requires |r| == |d|
    requires forall k :: 0 <= k < |r| ==> |r[k].1| == |d[k].1|
    requires SumLengths(Values(d)) <= |urls| && Flatten(FilledUrls(r)) == urls[..SumLengths(Values(d))]
    ensures Positioned(r, d, urls)
  {
    forall i | 0 <= i < |r| ensures Offset(Values(d), i) + |r[i].1| <= |urls| {
      OffsetBound(Values(d), i);
    }
    forall i, j | 0 <= i < |r| && 0 <= j < |r[i].1| ensures r[i].1[j].audioUrl == urls[Offset(Values(d), i) + j] {
      FilledAt(r, d, urls, i, j);
    }
  }

  /** The running index: sentence `j` of the `i`-th list gets the URL at
      position `Offset(i) + j` of the gathered results. */
  lemma FillPositioned(d: seq<(string, seq<string>)>, urls: seq<string>)
    requires SumLengths(Values(d)) <= |urls|
    ensures Positioned(Fill(d, urls), d, urls)
  {
    FilledPositions(Fill(d, urls), d, urls);
  }

  /** Each sentence paired with the audio of its own text and language. */
  function Labelled(d: seq<(string, seq<string>)>, audio: (string, string) -> string): (r: seq<(string, seq<ExampleEntry>)>)
    ensures |r| == |d|
  {
    seq(|d|, i requires 0 <= i < |d| =>
      (d[i].0, seq(|d[i].1|, j requires 0 <= j < |d[i].1| => ExampleEntry(d[i].1[j], audio(d[i].0, d[i].1[j])))))
  }

  /** The first list's results head the gathered results; the rest follow. */
  lemma TaskUrlsSplit(d: seq<(string, seq<string>)>, extra: seq<string>, audio: (string, string) -> string)
    requires |d| > 0
    ensures (TaskUrls(d, audio) + extra)[..|d[0].1|] == UrlsOf(d[0].0, d[0].1, audio)
    ensures (TaskUrls(d, audio) + extra)[|d[0].1|..] == TaskUrls(d[1..], audio) + extra
  {
    var h := UrlsOf(d[0].0, d[0].1, audio);
    assert TaskUrls(d, audio) + extra == h + (TaskUrls(d[1..], audio) + extra);
  }

  /** When the tasks are created from the very lists being filled, in the
      same order, every sentence receives the audio of its own text. */
  lemma {:induction false} FillOwnTasks(d: seq<(string, seq<string>)>, extra: seq<string>, audio: (string, string) -> string)
    ensures Fill(d, TaskUrls(d, audio) + extra) == Labelled(d, audio)
    decreases |d|
  {
    if |d| > 0 {
      var urls := TaskUrls(d, audio) + extra;
      TaskUrlsSplit(d, extra, audio);
      FillOwnTasks(d[1..], extra, audio);
      assert Labelled(d, audio)[1..] == Labelled(d[1..], audio);
      var n := |d[0].1|;
      var head := seq(n, j requires 0 <= j < n => ExampleEntry(d[0].1[j], urls[j]));
      assert head == Labelled(d, audio)[0].1;
      assert Fill(d, urls) == [(d[0].0, head)] + Fill(d[1..], urls[n..]);
    }
  }

  /** `zip(languages, lists)` as pairs. */
  function Zip<A, B>(xs: seq<A>, ys: seq<B>): (r: seq<(A, B)>)
    requires |xs| == |ys|
    ensures |r| == |xs|
    ensures forall i :: 0 <= i < |r| ==> r[i] == (xs[i], ys[i])
  {
    seq(|xs|, i requires 0 <= i < |xs| => (xs[i], ys[i]))
  }

  lemma ZipValues<A, B>(xs: seq<A>, ys: seq<B>)
    requires |xs| == |ys|
    ensures Values(Zip(xs, ys)) == ys
  {
  }

  /** Lines 148-170 as written: the example dictionary is assigned per
      language, overwriting a repeated code, while the audio tasks are
      appended for every language in the list; the URLs are then handed out
      by one running index over the dictionary's values, so entry `j` of the
      dictionary's `i`-th list gets gathered result `Offset(i) + j`. The index
      never runs past the gathered results. */
  function AssembleExamples(languages: seq<string>, lists: seq<seq<string>>, audio: (string, string) -> string): (r: seq<(string, seq<ExampleEntry>)>)
    requires |languages| == |lists|
    ensures Keys(r) == Keys(FromPairs(languages, lists))
    ensures forall i :: 0 <= i < |r| ==> |r[i].1| == |FromPairs(languages, lists)[i].1|
    ensures forall i, j :: 0 <= i < |r| && 0 <= j < |r[i].1| ==> r[i].1[j].text == FromPairs(languages, lists)[i].1[j]
    ensures SumLengths(Values(FromPairs(languages, lists))) <= |TaskUrls(Zip(languages, lists), audio)|
    ensures Flatten(FilledUrls(r)) == TaskUrls(Zip(languages, lists), audio)[..SumLengths(Values(FromPairs(languages, lists)))]
    ensures Positioned(r, FromPairs(languages, lists), TaskUrls(Zip(languages, lists), audio))
    ensures Mp3Urls(audio) ==> forall i :: 0 <= i < |r| ==> Mp3Seq(EntryUrls(r[i].1))
  {
    var d := FromPairs(languages, lists);
    var urls := TaskUrls(Zip(languages, lists), audio);
    FromPairsSumLengths(languages, lists);
    ZipValues(languages, lists);
    var r := Fill(d, urls);
    assert |Keys(r)| == |Keys(d)|;
    assert Mp3Urls(audio) ==> Mp3Seq(Flatten(FilledUrls(r))) by {
      if Mp3Urls(audio) {
        var n := SumLengths(Values(d));
        forall k | 0 <= k < n ensures urls[..n][k] == "" || EndsWith(urls[..n][k], AudioExtension) {
          assert urls[..n][k] == urls[k];
        }
      }
    }
    FlattenMp3(FilledUrls(r));
    FilledPositions(r, d, urls);
    r
  }

  /** The same assembly with the audio tasks created from the dictionary
      itself, so that a repeated code contributes one list and one set of tasks. */
  function AssembleExamplesKeyed(languages: seq<string>, lists: seq<seq<string>>, audio: (string, string) -> string): (r: seq<(string, seq<ExampleEntry>)>)
    requires |languages| == |lists|
    ensures r == Labelled(FromPairs(languages, lists), audio)
  {
    var d := FromPairs(languages, lists);
    FillOwnTasks(d, [], audio);
    assert TaskUrls(d, audio) + [] == TaskUrls(d, audio);
    Fill(d, TaskUrls(d, audio))
  }

  /** With pairwise-distinct codes the dictionary is the zipped pairs, so the
      positional hand-out gives every sentence the audio of its own text, read
      by its own language's strategy. */
  lemma DistinctLanguagesAlign(languages: seq<string>, lists: seq<seq<string>>, audio: (string, string) -> string)
    requires |languages| == |lists|
    requires Distinct(languages)
    ensures AssembleExamples(languages, lists, audio) == Labelled(Zip(languages, lists), audio)
  {
    FromDistinctPairs(languages, lists);
    assert FromPairs(languages, lists) == Zip(languages, lists);
    FillOwnTasks(Zip(languages, lists), [], audio);
    assert TaskUrls(Zip(languages, lists), audio) + [] == TaskUrls(Zip(languages, lists), audio);
  }

  /** A code given twice keeps only its second list, but that list is filled
      with the audio produced for the FIRST list's sentences. */
  lemma RepeatedLanguageMisaligns(code: string, first: seq<string>, second: seq<string>, audio: (string, string) -> string)
    requires |first| == |second|
    ensures var r := AssembleExamples([code, code], [first, second], audio);
            && |r| == 1 && r[0].0 == code && |r[0].1| == |second|
            && forall j :: 0 <= j < |second| ==>
                 r[0].1[j] == ExampleEntry(second[j], audio(code, first[j]))
  {
    var ks := [code, code];
    var vs := [first, second];
    assert ks[..1] == [code] && vs[..1] == [first];
    var one := FromPairs([code], [first]);
    var noKeys: seq<string> := [];
    var noLists: seq<seq<string>> := [];
    assert [code][..0] == noKeys && [first][..0] == noLists;
    assert |FromPairs(noKeys, noLists)| == 0;
    assert one == [(code, first)];
    var d := FromPairs(ks, vs);
    assert d == Store(one, code, second);
    assert d == [(code, second)];
    var pairs := Zip(ks, vs);
    var rest: seq<(string, seq<string>)> := pairs[1..];
    assert rest == [(code, second)];
    var empty: seq<(string, seq<string>)> := rest[1..];
    assert |empty| == 0;
    var urls := TaskUrls(pairs, audio);
    var h := UrlsOf(code, first, audio);
    assert TaskUrls(rest, audio) == UrlsOf(code, second, audio) + TaskUrls(empty, audio);
    assert urls == h + TaskUrls(rest, audio);
    assert urls[..|second|] == h;
    assert Values(d) == [second];
    forall j | 0 <= j < |second|
      ensures AssembleExamples(ks, vs, audio)[0].1[j].audioUrl == audio(code, first[j])
    {
      assert Offset(Values(d), 0) == 0;
    }
  }

  /** An audio environment in which every save succeeds and `hash` gives the text's length. */
  const SavingEnv := AudioEnv("data", (t: string) => |t|, (q: string) => q,
                              (v: string, t: string, p: string) => Saved, (u: string, k: nat) => HttpStatus(200))

  /** In `SavingEnv` the Cantonese strategy's save succeeds, so its run
      names the file it wrote. */
  lemma CantoneseSaves(text: string)
    requires text != ""
    ensures S.GenerateAudio(S.Cantonese, text, "hi", SavingEnv).result == Some(AudioFilename("hi", "zh-yue", text, SavingEnv.hash))
  {
    var cantonese: S.Strategy := S.Cantonese;
    assert cantonese.Code() == "zh-yue" && cantonese.Backend() == Edge;
    assert forall v, t, p :: SavingEnv.save(v, t, p) == Saved;
    assert '/' !in "hi";
    EdgeSaves(S.Cantonese, text, "hi", SavingEnv);
  }

  /** With a text-to-speech service whose every save succeeds, an Edge
      strategy's run names the file it wrote. */
  lemma EdgeSaves(s: S.Strategy, text: string, word: string, env: AudioEnv)
    requires s.Backend() == Edge && text != "" && word != "" && '/' !in word
    requires forall v, t, p :: env.save(v, t, p) == Saved
    ensures S.GenerateAudio(s, text, word, env).result == Some(AudioFilename(word, s.Code(), text, env.hash))
  {
    var path := GetAudioPath(AudioDir(env.storageDir), word, s.Code(), text, env.hash);
    assert env.save(EdgeTts.Voices[s.Code()], text, path) == Saved;
  }

  lemma CantoneseUrlInSavingEnv(text: string)
    requires text != ""
    ensures AudioUrl("zh-yue", text, "hi", SavingEnv) == AudioFilename("hi", "zh-yue", text, SavingEnv.hash)
  {
    assert Lower("zh-yue") == "zh-yue";
    assert GetStrategy("zh-yue") == S.Cantonese;
    CantoneseSaves(text);
  }

  lemma ShortFilenames()
    ensures AudioFilename("hi", "zh-yue", "A", SavingEnv.hash) == "hi_zh-yue_1.mp3"
    ensures AudioFilename("hi", "zh-yue", "BB", SavingEnv.hash) == "hi_zh-yue_2.mp3"
  {
    assert SavingEnv.hash("A") == 1 && SavingEnv.hash("BB") == 2;
    assert IntToString(1) == "1" by { assert DigitChar(1) == '1'; }
    assert IntToString(2) == "2" by { assert DigitChar(2) == '2'; }
  }

  /** A concrete instance: Cantonese requested twice, its one sentence
      translated to "A" the first time and "BB" the second. The response
      has one Cantonese entry, which keeps "BB" but names the file generated
      for "A"; the file for "BB" is generated and never referenced. */
  lemma RepeatedCantoneseExample()
    ensures var r := AssembleExamples(["zh-yue", "zh-yue"], [["A"], ["BB"]], Voiced("hi", SavingEnv));
            && |r| == 1 && r[0].0 == "zh-yue" && |r[0].1| == 1
            && r[0].1[0] == ExampleEntry("BB", "hi_zh-yue_1.mp3")
    ensures AudioUrl("zh-yue", "BB", "hi", SavingEnv) == "hi_zh-yue_2.mp3"
  {
    RepeatedLanguageMisaligns("zh-yue", ["A"], ["BB"], Voiced("hi", SavingEnv));
    CantoneseUrlInSavingEnv("A");
    CantoneseUrlInSavingEnv("BB");
    ShortFilenames();
  }

  /** The per-language definitions, in the order of `languages`. */
  function Definitions(word: string, languages: seq<string>, replies: QueryReplies): (r: seq<S.Definition>)
    ensures |r| == |languages|
    ensures forall i :: 0 <= i < |r| ==>
              r[i] == GenerateDefinition(word, languages[i], replies.translation(i), replies.definition(i)).result
  {
    seq(|languages|, i requires 0 <= i < |languages| =>
      GenerateDefinition(word, languages[i], replies.translation(i), replies.definition(i)).result)
  }

  /** The per-language example lists, in the order of `languages`. */
  function ExampleLists(languages: seq<string>, base: seq<string>, replies: QueryReplies): (r: seq<seq<string>>)
    ensures |r| == |languages|
    ensures forall i :: 0 <= i < |r| ==> r[i] == ExamplesFor(languages[i], base, replies.sentence(i))
  {
    seq(|languages|, i requires 0 <= i < |languages| => ExamplesFor(languages[i], base, replies.sentence(i)))
  }

  /** `query_word(word, languages, example_count)` as written, without the
      timestamp and the saved record. */
  function QueryWord(word: string, languages: seq<string>, exampleCount: int, replies: QueryReplies, env: AudioEnv): (r: QueryResponse)
    ensures r.word == word && r.languages == languages
    ensures UniqueKeys(r.results.definitions) && UniqueKeys(r.results.examples)
    ensures forall l :: l in Keys(r.results.definitions) <==> l in languages
    ensures Keys(r.results.examples) == Keys(r.results.definitions)
    ensures forall i, j :: 0 <= i < |r.results.examples| && 0 <= j < |r.results.examples[i].1| ==>
              var url := r.results.examples[i].1[j].audioUrl;
              url == "" || EndsWith(url, AudioExtension)
  {
    var base := GenerateBaseExamples(word, exampleCount, replies.base);
    var defs := Definitions(word, languages, replies);
    var lists := ExampleLists(languages, base, replies);
    FromPairsKeys(languages, defs);
    FromPairsKeys(languages, lists);
    KeysByLength(languages, defs, lists);
    VoicedMp3(word, env);
    QueryResponse(word, languages, Results(FromPairs(languages, defs), AssembleExamples(languages, lists, Voiced(word, env))))
  }

  /** The keys of a dictionary built from pairs depend on the keys alone. */
  lemma {:induction false} KeysByLength<K(!new), A, B>(ks: seq<K>, xs: seq<A>, ys: seq<B>)
    requires |ks| == |xs| == |ys|
    ensures Keys(FromPairs(ks, xs)) == Keys(FromPairs(ks, ys))
    decreases |ks|
  {
    if |ks| > 0 {
      var n := |ks| - 1;
      KeysByLength(ks[..n], xs[..n], ys[..n]);
      FromPairsKeys(ks[..n], xs[..n]);
      FromPairsKeys(ks[..n], ys[..n]);
    }
  }

  /** `query_word` with the keyed audio assembly: identical except that every
      example entry, for any list of codes, carries the audio of its own text. */
  function QueryWordKeyed(word: string, languages: seq<string>, exampleCount: int, replies: QueryReplies, env: AudioEnv): (r: QueryResponse)
    ensures r.word == word && r.languages == languages
    ensures r.results.definitions == QueryWord(word, languages, exampleCount, replies, env).results.definitions
    ensures r.results.examples == Labelled(FromPairs(languages,
              ExampleLists(languages, GenerateBaseExamples(word, exampleCount, replies.base), replies)), Voiced(word, env))
  {
    var base := GenerateBaseExamples(word, exampleCount, replies.base);
    var defs := Definitions(word, languages, replies);
    var lists := ExampleLists(languages, base, replies);
    QueryResponse(word, languages, Results(FromPairs(languages, defs), AssembleExamplesKeyed(languages, lists, Voiced(word, env))))
  }

  /** The sentences of an entry list. */
  function Texts(entries: seq<ExampleEntry>): (r: seq<string>)
    ensures |r| == |entries|
  {
    seq(|entries|, j requires 0 <= j < |entries| => entries[j].text)
  }

  /** For any code list, a code's assembled entries hold, in order, the
      sentences of its last occurrence. */
  lemma AssembledTexts(languages: seq<string>, lists: seq<seq<string>>, audio: (string, string) -> string, l: string)
    requires |languages| == |lists| && l in languages
    ensures Get(AssembleExamples(languages, lists, audio), l).Some?
    ensures Texts(Get(AssembleExamples(languages, lists, audio), l).value) == lists[LastIndex(languages, l)]
  {
    var k := LastIndex(languages, l);
    FromPairsGet(languages, lists, l);
    FromPairsKeys(languages, lists);
    var d := FromPairs(languages, lists);
    GetFound(d, l);
    var i :| 0 <= i < |d| && d[i] == (l, lists[k]);
    var ex := AssembleExamples(languages, lists, audio);
    assert ex[i].0 == Keys(ex)[i] == Keys(d)[i] == l;
    GetAt(ex, i);
    assert Texts(ex[i].1) == d[i].1;
  }

  /** Each requested code finds the definition computed for its last
      occurrence in `languages`, and examples whose sentences are that
      occurrence's list, in order. */
  lemma QueryWordEntries(word: string, languages: seq<string>, exampleCount: int, replies: QueryReplies, env: AudioEnv, l: string)
    requires l in languages
    ensures var r := QueryWord(word, languages, exampleCount, replies, env);
            var k := LastIndex(languages, l);
            var lists := ExampleLists(languages, GenerateBaseExamples(word, exampleCount, replies.base), replies);
            && Get(r.results.definitions, l) == Some(Definitions(word, languages, replies)[k])
            && Get(r.results.examples, l).Some?
            && Texts(Get(r.results.examples, l).value) == lists[k]
  {
    var lists := ExampleLists(languages, GenerateBaseExamples(word, exampleCount, replies.base), replies);
    FromPairsGet(languages, Definitions(word, languages, replies), l);
    AssembledTexts(languages, lists, Voiced(word, env), l);
  }

  /** With pairwise-distinct codes the response lists every code once, in
      request order, and every example entry carries the audio generated from
      its own text by its own language's strategy. */
  lemma QueryWordAligned(word: string, languages: seq<string>, exampleCount: int, replies: QueryReplies, env: AudioEnv)
    requires Distinct(languages)
    ensures var r := QueryWord(word, languages, exampleCount, replies, env);
            var lists := ExampleLists(languages, GenerateBaseExamples(word, exampleCount, replies.base), replies);
            && r.results.definitions == Zip(languages, Definitions(word, languages, replies))
            && r.results.examples == Labelled(Zip(languages, lists), Voiced(word, env))
  {
    var lists := ExampleLists(languages, GenerateBaseExamples(word, exampleCount, replies.base), replies);
    FromDistinctPairs(languages, Definitions(word, languages, replies));
    DistinctLanguagesAlign(languages, lists, Voiced(word, env));
  }
}
