/** Language detection of src/utils/language.ts: the share of Persian-block
    characters and of ASCII letters among all such characters decides the
    language of a query, which selects the reply instruction appended to the
    prompt. */
module Language {
  import opened Text

  /** `"en" | "fa" | "unknown"`. */
  datatype Language = En | Fa | Unknown

  /** Matched by `/[\u0600-\u06FF]/`. */
  predicate IsPersian(c: char) {
    '\U{600}' <= c <= '\U{6FF}'
  }

  /** Matched by `/[a-zA-Z]/`. */
  predicate IsLatin(c: char) {
    ('a' <= c <= 'z') || ('A' <= c <= 'Z')
  }

  /** The number of matches of the Persian-block pattern in `s`. */
  function CountPersian(s: string): (n: nat)
    ensures n <= |s|
    ensures n == 0 <==> forall i | 0 <= i < |s| :: !IsPersian(s[i])
  {
    if s == [] then 0
    else
      assert forall i | 0 < i < |s| :: s[i] == s[1..][i - 1];
      (if IsPersian(s[0]) then 1 else 0) + CountPersian(s[1..])
  }

  /** The number of matches of the ASCII-letter pattern in `s`. */
  function CountLatin(s: string): (n: nat)
    ensures n <= |s|
    ensures n == 0 <==> forall i | 0 <= i < |s| :: !IsLatin(s[i])
  {
    if s == [] then 0
    else
      assert forall i | 0 < i < |s| :: s[i] == s[1..][i - 1];
      (if IsLatin(s[0]) then 1 else 0) + CountLatin(s[1..])
  }

  /** `detectLanguage`. The source's `persianChars / total > 0.3` is written
      exactly in integers as `10 * persian > 3 * total`, and likewise for the
      Latin share. The two shares add up to one, so one of them exceeds 0.3
      whenever there is a letter: `"unknown"` means exactly that the text has
      neither a Persian-block character nor an ASCII letter (empty and blank
      text included), and the last `"unknown"` branch is never taken. */
  function DetectLanguage(text: string): (r: Language)
    ensures var p, l := CountPersian(text), CountLatin(text);
      && (r == Unknown <==> p + l == 0)
      && (r == Fa <==> 10 * p > 3 * (p + l))
      && (r == En <==> p + l > 0 && 10 * p <= 3 * (p + l))
  {
    if |text| == 0 || Blank(text) then
      BlankHasNoLetters(text);
      Unknown
    else
      var persian, latin := CountPersian(text), CountLatin(text);
      var total := persian + latin;
      if total == 0 then Unknown
      else if 10 * persian > 3 * total then Fa
      else if 10 * latin > 3 * total then En
      else Unknown
  }

  /** Empty or blank text has neither a Persian-block character nor an ASCII
      letter. */
  lemma BlankHasNoLetters(text: string)
    requires |text| == 0 || Blank(text)
    ensures CountPersian(text) == 0 && CountLatin(text) == 0
  {
    forall i | 0 <= i < |text| ensures !IsPersian(text[i]) && !IsLatin(text[i]) {
      assert IsSpace(text[i]);
    }
  }

  /** Text with a Persian-block character or an ASCII letter is not blank. */
  lemma LettersAreNotBlank(text: string)
    requires CountPersian(text) + CountLatin(text) > 0
    ensures |text| > 0 && !Blank(text)
  {
    if CountPersian(text) > 0 {
      var i :| 0 <= i < |text| && IsPersian(text[i]);
      assert !IsSpace(text[i]);
    } else {
      var i :| 0 <= i < |text| && IsLatin(text[i]);
      assert !IsSpace(text[i]);
    }
  }

  /** `getLanguageInstruction`. */
  function GetLanguageInstruction(language: Language): string {
    match language
    case Fa => "لطفاً پاسخ را به زبان فارسی بدهید (Please respond in Persian/Farsi)."
    case En => "Please respond in English."
    case Unknown => "Please respond in the same language as the question."
  }

  /** Each language has its own instruction. */
  lemma InstructionsDistinct(a: Language, b: Language)
    requires a != b
    ensures GetLanguageInstruction(a) != GetLanguageInstruction(b)
  {
  }

  /** Separator between a prompt and its language note. */
  const NoteHeader := "\n\nLanguage Note: "

  /** `addLanguageContext`: the prompt is kept as a prefix and followed by the
      note for the language detected in the query. */
  function AddLanguageContext(prompt: string, query: string): (r: string)
    ensures |prompt| < |r|
    ensures r[..|prompt|] == prompt
    ensures r[|prompt|..] == NoteHeader + GetLanguageInstruction(DetectLanguage(query))
  {
    var note := NoteHeader + GetLanguageInstruction(DetectLanguage(query));
    assert (prompt + note)[|prompt|..] == note;
    prompt + note
  }
}
