/** The word-window chunker of src/utils/chunk.ts: the corpus is split into
    whitespace-separated words, and every `maxWords` consecutive words become
    one chunk, joined by single spaces. */
module Chunk {
  import opened Arith
  import opened Text

  /** The consecutive, non-overlapping windows of `maxWords` words; the last
      one may be shorter. */
  function Windows(ws: seq<string>, maxWords: nat): seq<seq<string>>
    requires maxWords >= 1
    decreases |ws|
  {
    if |ws| == 0 then []
    else
      var n := Min(maxWords, |ws|);
      [ws[..n]] + Windows(ws[n..], maxWords)
  }

  /** Each window joined with single spaces. */
  function JoinEach(windows: seq<seq<string>>): seq<string> {
    seq(|windows|, i requires 0 <= i < |windows| => Join(windows[i], " "))
  }

  /** What `splitIntoChunks(text, maxWords)` returns. */
  function Chunks(text: string, maxWords: nat): seq<string>
    requires maxWords >= 1
  {
    JoinEach(Windows(Words(text), maxWords))
  }

  /** The concatenation of a sequence of word lists. */
  function Flatten(wss: seq<seq<string>>): seq<string> {
    if |wss| == 0 then [] else wss[0] + Flatten(wss[1..])
  }

  /** The words of each chunk, chunk by chunk. */
  function WordsOfEach(chunks: seq<string>): seq<seq<string>> {
    seq(|chunks|, i requires 0 <= i < |chunks| => Words(chunks[i]))
  }

  /** The loop of `splitIntoChunks`: `i` advances by `maxWords` and each step
      pushes `words.slice(i, i + maxWords).join(" ")`. A `maxWords` of zero
      would never advance, so it is excluded. */
  method SplitIntoChunks(text: string, maxWords: nat := 250) returns (chunks: seq<string>)
    requires maxWords >= 1
    ensures chunks == Chunks(text, maxWords)
  {
    var words := Words(text);
    chunks := [];
    ghost var done: seq<seq<string>> := [];
    var i := 0;
    while i < |words|
      invariant 0 <= i
      invariant Windows(words, maxWords) == done + Windows(words[Min(i, |words|)..], maxWords)
      invariant chunks == JoinEach(done)
    {
      var end := Min(i + maxWords, |words|);
      LoopStep(words, maxWords, i, done);
      JoinEachSnoc(done, words[i..end]);
      chunks := chunks + [Join(words[i..end], " ")];
      done := done + [words[i..end]];
      i := i + maxWords;
    }
    assert words[Min(i, |words|)..] == [];
  }

  /** The loop invariant survives one step: the window starting at `i` moves
      from the windows still to come to the windows done. */
  lemma LoopStep(words: seq<string>, m: nat, i: nat, done: seq<seq<string>>)
    requires m >= 1 && i < |words|
    requires Windows(words, m) == done + Windows(words[Min(i, |words|)..], m)
    ensures Windows(words, m) == (done + [words[i..Min(i + m, |words|)]]) + Windows(words[Min(i + m, |words|)..], m)
  {
    WindowsStep(words, i, m);
    var w, rest := words[i..Min(i + m, |words|)], Windows(words[Min(i + m, |words|)..], m);
    assert done + ([w] + rest) == (done + [w]) + rest;
  }

  /** Joining one more window appends its chunk. */
  lemma JoinEachSnoc(windows: seq<seq<string>>, w: seq<string>)
    ensures JoinEach(windows + [w]) == JoinEach(windows) + [Join(w, " ")]
  {
  }

  /** One step of the loop: the windows from word `i` on are the window
      starting at `i` followed by the windows after it. */
  lemma WindowsStep(ws: seq<string>, i: nat, m: nat)
    requires m >= 1 && i < |ws|
    ensures Windows(ws[i..], m) == [ws[i..Min(i + m, |ws|)]] + Windows(ws[Min(i + m, |ws|)..], m)
  {
    var n := Min(m, |ws| - i);
    assert ws[i..][..n] == ws[i..Min(i + m, |ws|)];
    assert ws[i..][n..] == ws[Min(i + m, |ws|)..];
  }

  lemma {:induction false} WindowCount(ws: seq<string>, m: nat)
    requires m >= 1
    ensures var c := |Windows(ws, m)|;
      if |ws| == 0 then c == 0 else (c - 1) * m < |ws| <= c * m
    decreases |ws|
  {
    if |ws| > m {
      WindowCount(ws[m..], m);
      var c := |Windows(ws[m..], m)|;
      assert |Windows(ws, m)| == c + 1;
      assert (c + 1) * m == c * m + m;
    }
  }

  lemma {:induction false} WindowSizes(ws: seq<string>, m: nat)
    requires m >= 1
    ensures forall i | 0 <= i < |Windows(ws, m)| ::
      && 1 <= |Windows(ws, m)[i]| <= m
      && (i < |Windows(ws, m)| - 1 ==> |Windows(ws, m)[i]| == m)
    decreases |ws|
  {
    if |ws| > m {
      WindowSizes(ws[m..], m);
      var w, w' := Windows(ws, m), Windows(ws[m..], m);
      assert |w'| >= 1;
      forall i | 0 < i < |w| ensures w[i] == w'[i - 1] { }
    }
  }

  lemma {:induction false} WindowsFlatten(ws: seq<string>, m: nat)
    requires m >= 1
    ensures Flatten(Windows(ws, m)) == ws
    decreases |ws|
  {
    if |ws| > 0 {
      var n := Min(m, |ws|);
      WindowsFlatten(ws[n..], m);
      assert Windows(ws, m)[1..] == Windows(ws[n..], m);
      assert ws == ws[..n] + ws[n..];
    }
  }

  lemma {:induction false} WindowsHoldWords(ws: seq<string>, m: nat)
    requires m >= 1
    requires AllWords(ws)
    ensures forall i | 0 <= i < |Windows(ws, m)| :: AllWords(Windows(ws, m)[i])
    decreases |ws|
  {
    if |ws| > 0 {
      var n := Min(m, |ws|);
      WindowsHoldWords(ws[n..], m);
      var w := Windows(ws, m);
      forall i | 0 <= i < |w| ensures AllWords(w[i]) {
        if i == 0 {
          assert forall j | 0 <= j < |w[0]| :: w[0][j] == ws[j];
        } else {
          assert w[i] == Windows(ws[n..], m)[i - 1];
        }
      }
    }
  }

  /** Each chunk's own words are exactly its window. */
  lemma ChunkWordsAreWindows(text: string, m: nat)
    requires m >= 1
    ensures WordsOfEach(Chunks(text, m)) == Windows(Words(text), m)
  {
    var w := Windows(Words(text), m);
    WindowsHoldWords(Words(text), m);
    forall i | 0 <= i < |w| ensures Words(Join(w[i], " ")) == w[i] {
      WordsOfJoin(w[i]);
    }
  }

  /** There are ceil(wordCount / maxWords) chunks: none for no words, and
      otherwise the least count whose windows hold every word. */
  lemma ChunkCount(text: string, m: nat)
    requires m >= 1
    ensures var c, n := |Chunks(text, m)|, |Words(text)|;
      if n == 0 then c == 0 else (c - 1) * m < n <= c * m
  {
    WindowCount(Words(text), m);
  }

  /** Every chunk but the last holds exactly `maxWords` words; the last holds
      between one and `maxWords`. */
  lemma ChunkSizes(text: string, m: nat)
    requires m >= 1
    ensures var c := Chunks(text, m);
      forall i | 0 <= i < |c| ::
        (i < |c| - 1 ==> |Words(c[i])| == m) && 1 <= |Words(c[i])| <= m
  {
    ChunkWordsAreWindows(text, m);
    WindowSizes(Words(text), m);
    var c := Chunks(text, m);
    forall i | 0 <= i < |c|
      ensures (i < |c| - 1 ==> |Words(c[i])| == m) && 1 <= |Words(c[i])| <= m
    {
      assert Words(c[i]) == WordsOfEach(c)[i];
    }
  }

  /** The words of all chunks, in order, are the words of the text: no
      overlap, nothing dropped. */
  lemma ChunksRestoreWords(text: string, m: nat)
    requires m >= 1
    ensures Flatten(WordsOfEach(Chunks(text, m))) == Words(text)
  {
    ChunkWordsAreWindows(text, m);
    WindowsFlatten(Words(text), m);
  }

  /** No chunk is empty, and none starts or ends with whitespace. */
  lemma ChunksAreTrimmed(text: string, m: nat)
    requires m >= 1
    ensures var c := Chunks(text, m);
      forall i | 0 <= i < |c| :: |c[i]| > 0 && !IsSpace(c[i][0]) && !IsSpace(c[i][|c[i]| - 1])
  {
    var w := Windows(Words(text), m);
    WindowsHoldWords(Words(text), m);
    WindowSizes(Words(text), m);
    forall i | 0 <= i < |w|
      ensures var s := Join(w[i], " "); |s| > 0 && !IsSpace(s[0]) && !IsSpace(s[|s| - 1])
    {
      JoinOfWordsIsTrimmed(w[i]);
    }
  }

  /** Empty or whitespace-only text, and only such text, yields no chunks. */
  lemma NoChunksIffBlank(text: string, m: nat)
    requires m >= 1
    ensures Chunks(text, m) == [] <==> Blank(text)
  {
    WordsEmptyIffBlank(text);
    WindowCount(Words(text), m);
  }
}
