/** `MockAudioGenerator` (utils/audio.py): a URL for the file that would be generated, without generating it. */
module MockAudio {
  import opened PyStr
  import opened PosixPath
  import opened AudioBase

  const UrlPrefix := "/audio/"

  /** `generate_audio(text, language, word)`: `/audio/` followed by the
      basename of the audio path. It never fails and never checks its
      arguments; for a slash-free word and language the URL names exactly the
      file a real generator would write. */
  function GenerateAudio(text: string, language: string, word: string, env: AudioEnv): (url: string)
    ensures StartsWith(url, UrlPrefix)
    ensures EndsWith(url, AudioExtension)
    ensures '/' !in url[|UrlPrefix|..]
    ensures '/' !in word && '/' !in language ==> url == UrlPrefix + AudioFilename(word, language, text, env.hash)
  {
    var path := GetAudioPath(AudioDir(env.storageDir), word, language, text, env.hash);
    AudioBasenameNonEmpty(AudioDir(env.storageDir), word, language, text, env.hash);
    var name := Basename(path);
    EndsWithTransitive(UrlPrefix + name, name, AudioExtension);
    assert (UrlPrefix + name)[|UrlPrefix|..] == name;
    UrlPrefix + name
  }
}
