/**
 The LLM service layer (services/llms/llm_service.py): the fixed demo
 service, the fallbacks of the real service when a reply is missing or is
 not the JSON it asked for, and the random-word generator with its shared
 list of recently produced words.

 A reply of the chat client is `Option<string>` (`None` when the request
 failed); `json.loads` is the oracle `parse`, `None` standing for a
 `JSONDecodeError`.
 */
module LlmService {
  import opened Wrappers
  import opened PyStr
  import opened PySeq

  /** A value `json.loads` can produce. Numbers are kept integral. */
  datatype Json =
    | JNull
    | JBool(b: bool)
    | JNumber(n: int)
    | JString(s: string)
    | JArray(items: seq<Json>)
    | JObject(fields: map<string, Json>)

  /** `result.get(key, default)` on a parsed object. */
  function GetField(fields: map<string, Json>, key: string, default: Json): (v: Json)
    ensures key in fields ==> v == fields[key]
    ensures key !in fields ==> v == default
  {
    if key in fields then fields[key] else default
  }

  /** `if response:` — a reply that is present and not empty. */
  predicate Truthy(reply: Option<string>) {
    reply.Some? && reply.value != ""
  }

  /** The five-key dictionary both services return for a word. */
  datatype WordDefinition = WordDefinition(definition: Json, phonetic: Json, pos: Json, synonyms: Json, antonyms: Json)

  function DefaultDefinitionText(word: string): string { "Definition for " + word }
  function DefaultPhonetic(word: string): string { "/" + word + "/" }
  const DefaultPos := "n."

  /** The dictionary returned when the reply is missing or is not JSON. */
  function DefaultWordDefinition(word: string): WordDefinition {
    WordDefinition(JString(DefaultDefinitionText(word)), JString(DefaultPhonetic(word)), JString(DefaultPos), JArray([]), JArray([]))
  }

  /** `DemoLLMService.generate_word_definition`. */
  function DemoWordDefinition(word: string): WordDefinition {
    WordDefinition(
      JString(DefaultDefinitionText(word)), JString(DefaultPhonetic(word)), JString(DefaultPos),
      JArray([JString("syn1_" + word), JString("syn2_" + word)]),
      JArray([JString("ant1_" + word), JString("ant2_" + word)]))
  }

  /** The demo dictionary is the real service's default with two made-up
      synonyms and antonyms, each one derived from the word. */
  lemma DemoIsDefaultWithRelations(word: string)
    ensures DemoWordDefinition(word).(synonyms := JArray([]), antonyms := JArray([])) == DefaultWordDefinition(word)
    ensures var d := DemoWordDefinition(word);
            && d.synonyms.JArray? && |d.synonyms.items| == 2 && d.antonyms.JArray? && |d.antonyms.items| == 2
            && (forall i :: 0 <= i < 2 ==> d.synonyms.items[i].JString? && EndsWith(d.synonyms.items[i].s, word))
            && (forall i :: 0 <= i < 2 ==> d.antonyms.items[i].JString? && EndsWith(d.antonyms.items[i].s, word))
  {
  }

  /** The five sentence templates of the demo service, with the word substituted. */
  function DemoTemplates(word: string): seq<string> {
    [ "How are you using " + word + " today?",
      "Nice to learn the word " + word + "!",
      "Welcome to our " + word + " meeting.",
      "What's the " + word + " like?",
      "Can you help me with " + word + "?" ]
  }

  /** `DemoLLMService.generate_examples(word, count)`: the first `count`
      templates (Python slicing, so a negative count drops from the end). */
  function DemoExamples(word: string, count: int): (r: seq<string>)
    ensures |r| <= 5 && r == DemoTemplates(word)[..|r|]
    ensures 0 <= count ==> |r| == if count < 5 then count else 5
    ensures count < 0 ==> |r| == if count > -5 then 5 + count else 0
    ensures forall i :: 0 <= i < |r| ==> Contains(r[i], word)
  {
    var t := DemoTemplates(word);
    ContainsInfix("How are you using ", word, " today?");
    ContainsInfix("Nice to learn the word ", word, "!");
    ContainsInfix("Welcome to our ", word, " meeting.");
    ContainsInfix("What's the ", word, " like?");
    ContainsInfix("Can you help me with ", word, "?");
    SlicePrefix(t, count)
  }

  /** What `LLMService.generate_word_definition` ends in: a dictionary, or
      the `AttributeError` of calling `.get` on parsed JSON that is not an
      object, which nothing catches. */
  datatype DefinitionOutcome = Defined(value: WordDefinition) | RaisesAttributeError

  /** `LLMService.generate_word_definition(word)`, given the client's reply. */
  function GenerateWordDefinition(word: string, reply: Option<string>, parse: string -> Option<Json>): (r: DefinitionOutcome)
    ensures !Truthy(reply) ==> r == Defined(DefaultWordDefinition(word))
    ensures Truthy(reply) && parse(reply.value).None? ==> r == Defined(DefaultWordDefinition(word))
    ensures r.RaisesAttributeError? <==> Truthy(reply) && parse(reply.value).Some? && !parse(reply.value).value.JObject?
    ensures Truthy(reply) && parse(reply.value).Some? && parse(reply.value).value.JObject? ==>
              var fields := parse(reply.value).value.fields;
              var default := DefaultWordDefinition(word);
              && r.Defined?
              && r.value.definition == (if "definition" in fields then fields["definition"] else default.definition)
              && r.value.phonetic == (if "phonetic" in fields then fields["phonetic"] else default.phonetic)
              && r.value.pos == (if "pos" in fields then fields["pos"] else default.pos)
              && r.value.synonyms == (if "synonyms" in fields then fields["synonyms"] else default.synonyms)
              && r.value.antonyms == (if "antonyms" in fields then fields["antonyms"] else default.antonyms)
  {
    var default := DefaultWordDefinition(word);
    if !Truthy(reply) then Defined(default)
    else match parse(reply.value)
      case None => Defined(default)
      case Some(JObject(f)) =>
        Defined(WordDefinition(
          GetField(f, "definition", default.definition),
          GetField(f, "phonetic", default.phonetic),
          GetField(f, "pos", default.pos),
          GetField(f, "synonyms", default.synonyms),
          GetField(f, "antonyms", default.antonyms)))
      case Some(_) => RaisesAttributeError
  }

  /** A reply that is a JSON object with all five keys comes back field for
      field; parsing it can never bring back the default for a key it has. */
  lemma FullReplyPassesThrough(word: string, reply: Option<string>, parse: string -> Option<Json>, d: WordDefinition)
    requires Truthy(reply)
    requires parse(reply.value) == Some(JObject(map[
               "definition" := d.definition, "phonetic" := d.phonetic, "pos" := d.pos,
               "synonyms" := d.synonyms, "antonyms" := d.antonyms]))
    ensures GenerateWordDefinition(word, reply, parse) == Defined(d)
  {
  }

  /** `LLMService.generate_examples(word, count)`: the `examples` field of the
      parsed reply, whatever JSON it holds; `[]` when the reply is missing,
      is not JSON, is not an object (the `AttributeError` is caught here), or
      has no such field. `count` only shapes the prompt. */
  function GenerateExamples(word: string, count: int, reply: Option<string>, parse: string -> Option<Json>): (r: Json)
    ensures r != JArray([]) ==>
              && Truthy(reply) && parse(reply.value).Some? && parse(reply.value).value.JObject?
              && "examples" in parse(reply.value).value.fields
              && r == parse(reply.value).value.fields["examples"]
    ensures Truthy(reply) && parse(reply.value).Some? && parse(reply.value).value.JObject?
              && "examples" in parse(reply.value).value.fields ==>
              r == parse(reply.value).value.fields["examples"]
  {
    if !Truthy(reply) then JArray([])
    else match parse(reply.value)
      case Some(JObject(f)) => GetField(f, "examples", JArray([]))
      case _ => JArray([])
  }

  const MaxRecentWords := 50
  const MaxAttempts := 3

  /** `_recent_words` after `word` is produced: appended, and the oldest
      entry dropped once the list is longer than the cap. */
  function Remember(recent: seq<Json>, word: Json): (r: seq<Json>)
    ensures |r| >= 1 && r[|r| - 1] == word
    ensures |recent| < MaxRecentWords ==> r == recent + [word]
    ensures |recent| >= MaxRecentWords ==> r == recent[1..] + [word]
  {
    var appended := recent + [word];
    if |appended| > MaxRecentWords then appended[1..] else appended
  }

  /** Starting from at most 50 entries (the list starts empty), the list
      never grows beyond 50 and loses at most its oldest entry. */
  lemma RememberBounded(recent: seq<Json>, word: Json)
    requires |recent| <= MaxRecentWords
    ensures |Remember(recent, word)| <= MaxRecentWords
    ensures |Remember(recent, word)| == if |recent| == MaxRecentWords then MaxRecentWords else |recent| + 1
    ensures forall x :: x in recent && x != recent[0] ==> x in Remember(recent, word)
  {
    var r := Remember(recent, word);
    forall x | x in recent && x != recent[0] ensures x in r {
      var i :| 0 <= i < |recent| && recent[i] == x;
      assert i > 0;
      if |recent| >= MaxRecentWords {
        assert r[i - 1] == x;
      } else {
        assert r[i] == x;
      }
    }
  }

  /** What one attempt of `generate_random_word` yields: the `word` field
      (JSON `null` when absent, as `.get` gives `None`) of a reply that is
      present, is JSON and is an object, when that value is not among the
      recent words; otherwise the loop moves on to the next attempt. */
  function Candidate(reply: Option<string>, parse: string -> Option<Json>, recent: seq<Json>): (c: Option<Json>)
    ensures c.Some? ==> c.value !in recent
    ensures c.Some? <==> Truthy(reply) && parse(reply.value).Some? && parse(reply.value).value.JObject?
                         && GetField(parse(reply.value).value.fields, "word", JNull) !in recent
  {
    if !Truthy(reply) then None
    else match parse(reply.value)
      case Some(JObject(f)) =>
        var word := GetField(f, "word", JNull);
        if word in recent then None else Some(word)
      case _ => None
  }

  /** `generate_random_word(style)` over the explicit recent-words list.
      `replies(k)` is the client's reply to the k-th call (the prompt is the
      same each time). Returns the word, the list afterwards, and how many
      calls were made. */
  method GenerateRandomWord(recent: seq<Json>, replies: nat -> Option<string>, parse: string -> Option<Json>)
    returns (word: Option<Json>, recentAfter: seq<Json>, calls: nat)
    ensures 1 <= calls <= MaxAttempts
    ensures forall k :: 0 <= k < calls - 1 ==> Candidate(replies(k), parse, recent).None?
    ensures word.None? <==> forall k :: 0 <= k < MaxAttempts ==> Candidate(replies(k), parse, recent).None?
    ensures word.None? ==> recentAfter == recent && calls == MaxAttempts
    ensures word.Some? ==> word == Candidate(replies(calls - 1), parse, recent)
    ensures word.Some? ==> word.value !in recent && recentAfter == Remember(recent, word.value)
    ensures |recent| <= MaxRecentWords ==> |recentAfter| <= MaxRecentWords
  {
    var k := 0;
    while k < MaxAttempts
      invariant 0 <= k <= MaxAttempts
      invariant forall j :: 0 <= j < k ==> Candidate(replies(j), parse, recent).None?
    {
      var c := Candidate(replies(k), parse, recent);
      if c.Some? {
        if |recent| <= MaxRecentWords {
          RememberBounded(recent, c.value);
        }
        return c, Remember(recent, c.value), k + 1;
      }
      k := k + 1;
    }
    return None, recent, MaxAttempts;
  }
}
