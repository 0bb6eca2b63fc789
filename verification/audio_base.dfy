/**
 What the two TTS generators share (utils/audio_base.py): the audio
 directory, the deterministic file name, the oracles standing for the
 external services, and the guard-call-check shape of `generate_audio`.
 */
module AudioBase {
  import opened Wrappers
  import opened PyStr
  import opened PosixPath

  const AudioSubdirectory := "audio"
  const AudioExtension := ".mp3"

  /** The two TTS generators a language can be bound to. */
  datatype Backend = Edge | Dui

  /** What a TTS service hands back to its generator: a value (`None` after
      a failure it handled itself), or a cancellation that propagates. */
  datatype ServiceResult = Returned(value: Option<string>) | Cancelled

  /** Outcome of synthesising and saving one file through the Edge TTS library. */
  datatype SaveOutcome = Saved | SaveFailed | SaveCancelled

  /** Outcome of one HTTP request of the phrase-synthesis backend: a status
      code, or an exception (network error, timeout, failed write), or a cancellation. */
  datatype AttemptOutcome = HttpStatus(status: int) | AttemptFailed | AttemptCancelled

  /** The external collaborators of audio generation, as oracles: the storage
      root, Python's per-process `hash`, `urllib.parse.quote`, the Edge
      library's save of (voice, text, path), and the outcome of the phrase
      backend's request to a URL on a given attempt. */
  datatype AudioEnv = AudioEnv(
    storageDir: string,
    hash: string -> int,
    quote: string -> string,
    save: (string, string, string) -> SaveOutcome,
    attempt: (string, nat) -> AttemptOutcome)

  /** `BaseAudioGenerator.audio_dir`. */
  function AudioDir(storageDir: string): string {
    PathJoin(storageDir, AudioSubdirectory)
  }

  /** `{word}_{language}_{hash(text)}.mp3`. */
  function AudioFilename(word: string, language: string, text: string, hash: string -> int): string {
    word + "_" + language + "_" + IntToString(hash(text)) + AudioExtension
  }

  lemma FilenameShape(word: string, language: string, text: string, hash: string -> int)
    ensures EndsWith(AudioFilename(word, language, text, hash), AudioExtension)
    ensures '/' !in word && '/' !in language ==> '/' !in AudioFilename(word, language, text, hash)
  {
    var digits := IntToString(hash(text));
    var name := AudioFilename(word, language, text, hash);
    assert name == (word + "_" + language + "_" + digits) + AudioExtension;
    if '/' !in word && '/' !in language {
      assert '/' !in digits by {
        forall i | 0 <= i < |digits| ensures digits[i] != '/' { }
      }
    }
  }

  lemma JoinedNameFacts(audioDir: string, word: string, language: string, text: string, hash: string -> int)
    ensures var name := AudioFilename(word, language, text, hash);
            var path := PathJoin(audioDir, name);
            && EndsWith(path, AudioExtension)
            && (!StartsWith(word, "/") ==> StartsWith(path, audioDir))
            && (StartsWith(word, "/") ==> path == name)
            && ('/' !in word && '/' !in language ==> Basename(path) == name)
  {
    var name := AudioFilename(word, language, text, hash);
    FilenameShape(word, language, text, hash);
    var path := PathJoin(audioDir, name);
    EndsWithTransitive(path, name, AudioExtension);
    if |word| > 0 {
      assert name[..1] == word[..1];
    } else {
      assert name[..1] == "_";
    }
    if '/' !in word && '/' !in language {
      BasenameOfJoin(audioDir, name);
    }
  }

  /** `get_audio_path(word, language, text)`: the file name joined under the
      audio directory. A word starting with `/` makes the name absolute, and
      `os.path.join` then drops the directory. */
  function GetAudioPath(audioDir: string, word: string, language: string, text: string, hash: string -> int): (path: string)
    ensures EndsWith(path, AudioFilename(word, language, text, hash))
    ensures EndsWith(path, AudioExtension)
    ensures !StartsWith(word, "/") ==> StartsWith(path, audioDir)
    ensures StartsWith(word, "/") ==> path == AudioFilename(word, language, text, hash)
    ensures '/' !in word && '/' !in language ==> Basename(path) == AudioFilename(word, language, text, hash)
  {
    JoinedNameFacts(audioDir, word, language, text, hash);
    PathJoin(audioDir, AudioFilename(word, language, text, hash))
  }

  /** The basename of an audio path is never empty: it still ends in `.mp3`. */
  lemma AudioBasenameNonEmpty(audioDir: string, word: string, language: string, text: string, hash: string -> int)
    ensures EndsWith(Basename(GetAudioPath(audioDir, word, language, text, hash)), AudioExtension)
    ensures Basename(GetAudioPath(audioDir, word, language, text, hash)) != ""
  {
    BasenameKeepsSuffix(GetAudioPath(audioDir, word, language, text, hash), AudioExtension);
  }

  /** One `generate_audio` call: the result, and the output path the service
      was called with (`None` when the service was not called). */
  datatype AudioRun = AudioRun(result: Option<string>, servicePath: Option<string>)

  predicate NonEmptyArguments(text: string, language: string, word: string) {
    text != "" && language != "" && word != ""
  }

  /** A service value the generator passes on: `if result:` holds for it. */
  predicate Truthy(r: ServiceResult) {
    r.Returned? && r.value.Some? && r.value.value != ""
  }

  /** The body both generators share, given the audio path and what the
      service returns for it: empty text, language or word returns `None`
      without calling the service; otherwise the service is called with the
      path, a truthy value is returned unchanged, and a falsy value or a
      cancellation gives `None`. */
  function GeneratorRun(text: string, language: string, word: string, path: string,
                        outcome: ServiceResult): (run: AudioRun)
    ensures !NonEmptyArguments(text, language, word) ==> run == AudioRun(None, None)
    ensures NonEmptyArguments(text, language, word) ==> run.servicePath == Some(path)
    ensures run.result.Some? <==> NonEmptyArguments(text, language, word) && Truthy(outcome)
    ensures run.result.Some? ==> outcome == Returned(run.result)
  {
    if !NonEmptyArguments(text, language, word) then AudioRun(None, None)
    else
      match outcome
      case Cancelled => AudioRun(None, Some(path))
      case Returned(r) => AudioRun(if r.Some? && r.value != "" then r else None, Some(path))
  }
}
