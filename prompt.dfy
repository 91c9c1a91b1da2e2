/** Prompt assembly of src/utils/prompt.ts: the retrieved chunk texts become a
    bounded context section, recent conversation becomes an optional history
    section, and both are framed with the question and fixed instructions,
    then followed by the language note of src/utils/language.ts. */
module Prompt {
  import opened Outcomes
  import opened Arith
  import opened Text
  import opened Language

  const MaxContextLength := 2000
  const MaxHistoryLength := 1000
  /** History entries kept when the whole history is too long. */
  const RecentEntries := 5

  const ChunkSeparator := "\n---\n"
  const TruncationMarker := "... [truncated]"
  const Preamble := "You are a helpful assistant. Answer based on the provided context and conversation history.\n\n"
  const HistoryHeader := "Previous conversation:\n"
  const ContextHeader := "Context:\n"
  const QuestionHeader := "\n\nQuestion: "
  const Instructions :=
    "\n\nInstructions:\n"
    + "- If the answer is in the context, provide a clear and concise response\n"
    + "- If the answer is NOT in the context, say \"I don't have that information in my knowledge base\"\n"
    + "- Use the conversation history to maintain context\n"
    + "- Be helpful and friendly\n\nAnswer:"

  /** The context: the chunk texts joined by `"\n---\n"`. When its `length`
      (in UTF-16 code units) exceeds 2000 it is cut to the characters within
      its first 2000 code units and a marker is appended. */
  function ContextSection(contextChunks: seq<string>): (c: string)
    ensures var joined := Join(contextChunks, ChunkSeparator);
      && (Utf16Length(joined) <= MaxContextLength ==> c == joined)
      && (Utf16Length(joined) > MaxContextLength ==>
            var n := CutAt(joined, MaxContextLength);
            && |c| == n + |TruncationMarker|
            && c[..n] == joined[..n]
            && c[n..] == TruncationMarker)
  {
    var joined := Join(contextChunks, ChunkSeparator);
    if Utf16Length(joined) > MaxContextLength then
      var n := CutAt(joined, MaxContextLength);
      var c := joined[..n] + TruncationMarker;
      assert c[..n] == joined[..n];
      c
    else joined
  }

  /** For text inside the Basic Multilingual Plane the cut keeps exactly the
      first 2000 characters. */
  lemma ContextSectionBmp(contextChunks: seq<string>)
    requires InBmp(Join(contextChunks, ChunkSeparator))
    ensures var joined := Join(contextChunks, ChunkSeparator);
      |joined| > MaxContextLength ==>
        var c := ContextSection(contextChunks);
        && |c| == MaxContextLength + |TruncationMarker|
        && c[..MaxContextLength] == joined[..MaxContextLength]
        && c[MaxContextLength..] == TruncationMarker
  {
    var joined := Join(contextChunks, ChunkSeparator);
    BmpLength(joined);
    if |joined| > MaxContextLength {
      CutAtBmp(joined, MaxContextLength);
    }
  }

  /** The history entries that are shown: all of them when their
      `"\n"`-joined text is at most 1000 code units long, otherwise only the
      last five (`history.slice(-5)`), which are not cut further. */
  function RecentHistory(history: seq<string>): (shown: seq<string>)
    ensures |shown| <= |history|
    ensures shown == history[|history| - |shown|..]
    ensures Utf16Length(Join(history, "\n")) <= MaxHistoryLength ==> shown == history
    ensures Utf16Length(Join(history, "\n")) > MaxHistoryLength ==> |shown| == Min(RecentEntries, |history|)
  {
    if Utf16Length(Join(history, "\n")) > MaxHistoryLength then
      history[|history| - Min(RecentEntries, |history|)..]
    else history
  }

  /** The history section: nothing for an empty history, otherwise a header,
      the shown entries one per line, and a blank line. */
  function HistorySection(history: seq<string>): (h: string)
    ensures history == [] ==> h == ""
    ensures history != [] ==>
      && |HistoryHeader| <= |h|
      && h[..|HistoryHeader|] == HistoryHeader
      && h[|HistoryHeader|..] == Join(RecentHistory(history), "\n") + "\n\n"
  {
    if |history| > 0 then
      var body := Join(RecentHistory(history), "\n") + "\n\n";
      assert (HistoryHeader + body)[|HistoryHeader|..] == body;
      HistoryHeader + body
    else ""
  }

  /** The prompt before its language note; `PromptLayout` states where each
      part lies. */
  function PromptBody(contextChunks: seq<string>, question: string, history: seq<string>): string
  {
    var h, c := HistorySection(history), ContextSection(contextChunks);
    Preamble + h + ContextHeader + c + QuestionHeader + question + Instructions
  }

  /** `buildPrompt`: the prompt body followed by the language note chosen for
      the question. */
  function BuildPrompt(contextChunks: seq<string>, question: string, history: seq<string> := []): (r: string)
    ensures var body := PromptBody(contextChunks, question, history);
      && |body| < |r|
      && r[..|body|] == body
      && r[|body|..] == NoteHeader + GetLanguageInstruction(DetectLanguage(question))
  {
    AddLanguageContext(PromptBody(contextChunks, question, history), question)
  }

  /** The layout of the prompt body: the preamble, the history section,
      `"Context:\n"` and the context, `"\n\nQuestion: "` immediately followed by
      the question verbatim, and the instructions, in this order. */
  lemma PromptLayout(contextChunks: seq<string>, question: string, history: seq<string>)
    ensures var body := PromptBody(contextChunks, question, history);
      var h, c := HistorySection(history), ContextSection(contextChunks);
      var ctx := |Preamble| + |h|;
      var q := ctx + |ContextHeader| + |c| + |QuestionHeader|;
      && q + |question| + |Instructions| == |body|
      && body[..|Preamble|] == Preamble
      && body[|Preamble|..ctx] == h
      && body[ctx..ctx + |ContextHeader|] == ContextHeader
      && body[ctx + |ContextHeader|..ctx + |ContextHeader| + |c|] == c
      && body[q - |QuestionHeader|..q] == QuestionHeader
      && body[q..q + |question|] == question
      && body[q + |question|..] == Instructions
  {
    Layout(Preamble, HistorySection(history), ContextHeader, ContextSection(contextChunks),
           QuestionHeader, question, Instructions);
  }

  /** Where each part of a seven-part concatenation lies. */
  lemma Layout(a: string, b: string, c: string, d: string, e: string, f: string, g: string)
    ensures var s := a + b + c + d + e + f + g;
      var o1, o2, o3 := |a|, |a| + |b|, |a| + |b| + |c|;
      var o4, o5, o6 := o3 + |d|, o3 + |d| + |e|, o3 + |d| + |e| + |f|;
      && |s| == o6 + |g|
      && s[..o1] == a && s[o1..o2] == b && s[o2..o3] == c && s[o3..o4] == d
      && s[o4..o5] == e && s[o5..o6] == f && s[o6..] == g
  {
  }

  /** With no history the context follows the preamble directly: there is no
      "Previous conversation" section. */
  lemma NoHistoryNoSection(contextChunks: seq<string>, question: string)
    ensures var body := PromptBody(contextChunks, question, []);
      body[|Preamble|..|Preamble| + |ContextHeader|] == ContextHeader
  {
    PromptLayout(contextChunks, question, []);
  }
}
