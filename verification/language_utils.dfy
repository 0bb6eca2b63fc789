/** Script detection for words and sentences (services/utils/language_utils.py). */
module LanguageUtils {
  import opened PyStr

  /** A character of the CJK Unified Ideographs block, U+4E00 to U+9FFF. */
  predicate IsCjkIdeograph(c: char) {
    '\U{4E00}' <= c <= '\U{9FFF}'
  }

  predicate IsAsciiLetter(c: char) {
    ('a' <= c <= 'z') || ('A' <= c <= 'Z')
  }

  /** `is_chinese`: a regular-expression search for one ideograph, scanning left to right. */
  predicate IsChinese(text: string)
    ensures IsChinese(text) <==> exists i :: 0 <= i < |text| && IsCjkIdeograph(text[i])
  {
    if |text| == 0 then false
    else
      assert forall i :: 0 < i < |text| ==> text[i] == text[1..][i - 1];
      IsCjkIdeograph(text[0]) || IsChinese(text[1..])
  }

  /** Every character is an ASCII letter or whitespace. */
  predicate OnlyLettersAndSpace(text: string)
    ensures OnlyLettersAndSpace(text) <==> forall i :: 0 <= i < |text| ==> IsAsciiLetter(text[i]) || IsSpace(text[i])
  {
    if |text| == 0 then true
    else
      assert forall i :: 0 < i < |text| ==> text[i] == text[1..][i - 1];
      (IsAsciiLetter(text[0]) || IsSpace(text[0])) && OnlyLettersAndSpace(text[1..])
  }

  /** `is_english`: the anchored pattern `^[a-zA-Z\s]+$` matches the whole text,
      so the text is non-empty and made only of ASCII letters and whitespace. */
  predicate IsEnglish(text: string)
    ensures IsEnglish(text) <==> |text| > 0 && forall i :: 0 <= i < |text| ==> IsAsciiLetter(text[i]) || IsSpace(text[i])
  {
    |text| > 0 && OnlyLettersAndSpace(text)
  }

  /** The two script tests never both hold: an ideograph is neither an ASCII letter nor whitespace. */
  lemma ChineseIsNotEnglish(text: string)
    requires IsChinese(text)
    ensures !IsEnglish(text)
  {
    var i :| 0 <= i < |text| && IsCjkIdeograph(text[i]);
    assert !IsAsciiLetter(text[i]) && !IsSpace(text[i]);
  }

  /** Both patterns need at least one character: the empty text is neither
      Chinese nor English. A mixed word is Chinese and not English. */
  lemma ScriptExamples()
    ensures !IsChinese("") && !IsEnglish("")
    ensures IsEnglish("hi you") && !IsChinese("hi you")
    ensures IsChinese("hi 你好") && !IsEnglish("hi 你好")
  {
    assert OnlyLettersAndSpace("you");
    assert OnlyLettersAndSpace("hi you");
    assert !IsChinese("you");
    assert IsChinese("你好");
    ChineseIsNotEnglish("hi 你好");
  }
}
