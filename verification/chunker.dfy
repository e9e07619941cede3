/**
 * The word-window chunker (`chunk_text` in src/embeddings.py): the text is
 * split on whitespace and every `maxTokens - overlap` words a window of at
 * most `maxTokens` words is joined by single spaces.
 */
module Chunker {
  import opened Text

  function Min(a: nat, b: nat): nat {
    if a <= b then a else b
  }

  /**
   * The word windows of a word sequence: the first `maxTokens` words, then the
   * windows of what is left after dropping `step` words.
   */
  function Slices(words: seq<string>, maxTokens: nat, step: nat): seq<seq<string>>
    requires step > 0
    decreases |words|
  {
    if words == [] then []
    else [words[..Min(maxTokens, |words|)]] + Slices(words[Min(step, |words|)..], maxTokens, step)
  }

  /** Each window joined by single spaces. */
  function JoinEach(ss: seq<seq<string>>): (r: seq<string>)
    ensures |r| == |ss|
  {
    seq(|ss|, i requires 0 <= i < |ss| => Join(ss[i], " "))
  }

  /** The chunks of a word sequence: its windows, each joined by single spaces. */
  function Windows(words: seq<string>, maxTokens: nat, step: nat): seq<string>
    requires step > 0
  {
    JoinEach(Slices(words, maxTokens, step))
  }

  lemma JoinEachConcat(a: seq<seq<string>>, b: seq<seq<string>>)
    ensures JoinEach(a + b) == JoinEach(a) + JoinEach(b)
  {
    var l, r := JoinEach(a + b), JoinEach(a) + JoinEach(b);
    forall i | 0 <= i < |l|
      ensures l[i] == r[i]
    {
      if i < |a| {
        assert (a + b)[i] == a[i];
      } else {
        assert (a + b)[i] == b[i - |a|];
      }
    }
  }

  /** What `chunk_text(text, maxTokens, overlap)` returns. */
  function Chunks(text: string, maxTokens: nat, overlap: nat): (r: seq<string>)
    requires overlap < maxTokens || Words(text) == []
    ensures r == [] <==> Words(text) == []
  {
    var words := Words(text);
    if words == [] then [] else Windows(words, maxTokens, maxTokens - overlap)
  }

  lemma AppendAssoc<T>(a: seq<T>, b: seq<T>, c: seq<T>)
    ensures (a + b) + c == a + (b + c)
  {
  }

  lemma SliceOfSuffix<T>(s: seq<T>, a: nat, lo: nat, hi: nat)
    requires a + hi <= |s| && lo <= hi
    ensures s[a..][lo..hi] == s[a + lo..a + hi]
  {
  }

  lemma SuffixOfSuffix<T>(s: seq<T>, i: nat, a: nat)
    requires i + a <= |s|
    ensures s[i..][a..] == s[i + a..]
  {
  }

  lemma PrefixOfSuffix<T>(s: seq<T>, i: nat, a: nat)
    requires i + a <= |s|
    ensures s[i..][..a] == s[i..i + a]
  {
  }

  /**
   * `chunk_text`: the while loop of src/embeddings.py. It only terminates when the
   * window advances (overlap < maxTokens) or there are no words at all.
   */
  method ChunkText(text: string, maxTokens: nat, overlap: nat) returns (chunks: seq<string>)
    requires overlap < maxTokens || Words(text) == []
    ensures chunks == Chunks(text, maxTokens, overlap)
  {
    var words := Words(text);
    var step: int := maxTokens - overlap;
    chunks := [];
    var i: int := 0;
    while i < |words|
      invariant 0 <= i
      invariant words == [] ==> chunks == []
      invariant words != [] ==> step > 0 && chunks + Windows(words[Min(i, |words|)..], maxTokens, step) == Windows(words, maxTokens, step)
      decreases |words| - i
    {
      var chunk := Join(words[i..Min(i + maxTokens, |words|)], " ");
      WindowsStep(words, i, maxTokens, step);
      ChunkSurvivesStrip(text, i, maxTokens);
      AppendAssoc(chunks, [chunk], Windows(words[Min(i + step, |words|)..], maxTokens, step));
      var stripped := Strip(chunk);
      assert stripped != [];
      if stripped != [] {
        chunks := chunks + [chunk];
      }
      i := i + step;
    }
  }

  /** One turn of the loop: the chunks from word i on are the chunk at i, then those from i + step on. */
  lemma WindowsStep(words: seq<string>, i: nat, maxTokens: nat, step: nat)
    requires i < |words| && step > 0
    ensures Windows(words[i..], maxTokens, step)
      == [Join(words[i..Min(i + maxTokens, |words|)], " ")] + Windows(words[Min(i + step, |words|)..], maxTokens, step)
  {
    var n := |words|;
    var tail := words[i..];
    PrefixOfSuffix(words, i, Min(maxTokens, n - i));
    SuffixOfSuffix(words, i, Min(step, n - i));
    var first := words[i..Min(i + maxTokens, n)];
    var rest := Slices(words[Min(i + step, n)..], maxTokens, step);
    assert Slices(tail, maxTokens, step) == [first] + rest;
    JoinEachConcat([first], rest);
    assert JoinEach([first]) == [Join(first, " ")];
  }

  /** The `chunk.strip()` test of the loop always passes: a window starting at a word is never blank. */
  lemma ChunkSurvivesStrip(text: string, i: nat, maxTokens: nat)
    requires i < |Words(text)| && maxTokens > 0
    ensures Strip(Join(Words(text)[i..Min(i + maxTokens, |Words(text)|)], " ")) != []
  {
    var w := Words(text)[i..Min(i + maxTokens, |Words(text)|)];
    assert w[0] == Words(text)[i];
    WordAt(text, i);
    JoinedWindowStart(w);
  }

  // ---------------------------------------------------------------------
  // The shape of the chunks
  // ---------------------------------------------------------------------

  /** The word index where chunk j starts: j steps of `step` words. */
  function Offset(j: nat, step: nat): nat {
    if j == 0 then 0 else Offset(j - 1, step) + step
  }

  lemma {:induction false} OffsetIsProduct(j: nat, step: nat)
    ensures Offset(j, step) == j * step
  {
    if j > 0 {
      OffsetIsProduct(j - 1, step);
      assert (j - 1) * step + step == j * step;
    }
  }

  lemma MulMono(a: nat, b: nat, d: nat)
    requires a <= b
    ensures a * d <= b * d
  {
    assert b * d == a * d + (b - a) * d;
  }

  /** x / d is the unique c with c * d <= x < (c + 1) * d. */
  lemma DivUnique(x: nat, d: nat, c: nat)
    requires d > 0 && c * d <= x < c * d + d
    ensures x / d == c
  {
    var q, r := x / d, x % d;
    assert x == q * d + r && 0 <= r < d;
    if q < c {
      MulMono(q + 1, c, d);
    } else if q > c {
      MulMono(c + 1, q, d);
    }
  }

  /** ceil((n + d) / d) is one more than ceil(n / d). */
  lemma CeilStep(n: nat, d: nat)
    requires d > 0
    ensures (n + d + d - 1) / d == (n + d - 1) / d + 1
  {
    var c := (n + d - 1) / d;
    assert c * d <= n + d - 1 < c * d + d;
    DivUnique(n + d + d - 1, d, c + 1);
  }

  /** There are ceil(n / step) windows of n words. */
  lemma {:induction false} SlicesCount(words: seq<string>, maxTokens: nat, step: nat)
    requires step > 0
    ensures |Slices(words, maxTokens, step)| == (|words| + step - 1) / step
    decreases |words|
  {
    var n := |words|;
    if n == 0 {
      DivUnique(step - 1, step, 0);
    } else if n <= step {
      assert Slices(words, maxTokens, step) == [words[..Min(maxTokens, n)]];
      DivUnique(n + step - 1, step, 1);
    } else {
      SlicesCount(words[step..], maxTokens, step);
      CeilStep(n - step, step);
    }
  }

  /** The first character of the join of one or more words is not whitespace. */
  lemma JoinedWindowStart(w: seq<string>)
    requires w != [] && IsWord(w[0])
    ensures Strip(Join(w, " ")) != []
  {
    JoinStartsWithWord(w, " ");
    StripNonEmpty(Join(w, " "));
  }

  /** Splitting the single-space join of a run of the text's words gives back that run. */
  lemma WordsOfWindow(text: string, a: nat, b: nat)
    requires a <= b <= |Words(text)|
    ensures Words(Join(Words(text)[a..b], " ")) == Words(text)[a..b]
  {
    var w := Words(text)[a..b];
    forall i | 0 <= i < |w|
      ensures IsWord(w[i])
    {
      WordAt(text, a + i);
    }
    WordsOfJoin(w);
  }

  /** Chunk j's words, stated with its start Offset(j, step). */
  lemma ChunkWordsAtOffset(text: string, maxTokens: nat, overlap: nat, j: nat)
    requires overlap < maxTokens
    requires j < |Chunks(text, maxTokens, overlap)|
    ensures var words, o := Words(text), Offset(j, maxTokens - overlap);
      && o < |words|
      && Words(Chunks(text, maxTokens, overlap)[j]) == words[o..Min(o + maxTokens, |words|)]
  {
    var words, step := Words(text), maxTokens - overlap;
    var chunks := Chunks(text, maxTokens, overlap);
    assert chunks == Windows(words, maxTokens, step);
    WindowJoin(words, maxTokens, step, j);
    var o := Offset(j, step);
    WordsOfWindow(text, o, Min(o + maxTokens, |words|));
    assert chunks[j] == Join(words[o..Min(o + maxTokens, |words|)], " ");
  }

  /** The number of chunks: ceil(n / step) for n words (so none for a blank text). */
  lemma ChunkCountIsCeiling(text: string, maxTokens: nat, overlap: nat)
    requires overlap < maxTokens
    ensures var step := maxTokens - overlap;
      |Chunks(text, maxTokens, overlap)| == (|Words(text)| + step - 1) / step
  {
    var words, step := Words(text), maxTokens - overlap;
    if words == [] {
      DivUnique(step - 1, step, 0);
    } else {
      assert Chunks(text, maxTokens, overlap) == Windows(words, maxTokens, step);
      SlicesCount(words, maxTokens, step);
    }
  }

  /** Every chunk has between 1 and maxTokens words. */
  lemma ChunkWordCount(text: string, maxTokens: nat, overlap: nat, j: nat)
    requires overlap < maxTokens
    requires j < |Chunks(text, maxTokens, overlap)|
    ensures 1 <= |Words(Chunks(text, maxTokens, overlap)[j])| <= maxTokens
  {
    ChunkWordsAtOffset(text, maxTokens, overlap, j);
  }

  /** No chunk is blank: each one survives `strip()`. */
  lemma ChunkNotBlank(text: string, maxTokens: nat, overlap: nat, j: nat)
    requires overlap < maxTokens
    requires j < |Chunks(text, maxTokens, overlap)|
    ensures Strip(Chunks(text, maxTokens, overlap)[j]) != []
  {
    var words, step := Words(text), maxTokens - overlap;
    var chunks := Chunks(text, maxTokens, overlap);
    assert chunks == Windows(words, maxTokens, step);
    WindowJoin(words, maxTokens, step, j);
    var o := Offset(j, step);
    ChunkSurvivesStrip(text, o, maxTokens);
    assert chunks[j] == Join(words[o..Min(o + maxTokens, |words|)], " ");
  }

  /** A later window is a window of what is left after the first step. */
  lemma SlicesLater(words: seq<string>, maxTokens: nat, step: nat, j: nat)
    requires step > 0
    requires 0 < j < |Slices(words, maxTokens, step)|
    ensures step < |words|
    ensures j - 1 < |Slices(words[step..], maxTokens, step)|
    ensures Slices(words, maxTokens, step)[j] == Slices(words[step..], maxTokens, step)[j - 1]
  {
  }

  /** Window j is the first window of the words from offset j * step on. */
  lemma {:induction false} SlicesDrop(words: seq<string>, maxTokens: nat, step: nat, j: nat)
    requires step > 0
    requires j < |Slices(words, maxTokens, step)|
    ensures Offset(j, step) < |words|
    ensures Slices(words, maxTokens, step)[j] == Slices(words[Offset(j, step)..], maxTokens, step)[0]
    decreases |words|
  {
    if j == 0 {
      assert words[0..] == words;
    } else {
      SlicesLater(words, maxTokens, step, j);
      var rest := words[step..];
      SlicesDrop(rest, maxTokens, step, j - 1);
      var k := Offset(j - 1, step);
      SuffixOfSuffix(words, step, k);
      var o := Offset(j, step);
      assert o == step + k;
      assert rest[k..] == words[o..];
    }
  }

  /** Chunk j is the join of its window. */
  lemma WindowJoin(words: seq<string>, maxTokens: nat, step: nat, j: nat)
    requires step > 0
    requires j < |Windows(words, maxTokens, step)|
    ensures Offset(j, step) < |words|
    ensures Windows(words, maxTokens, step)[j]
      == Join(words[Offset(j, step)..Min(Offset(j, step) + maxTokens, |words|)], " ")
  {
    SlicesDrop(words, maxTokens, step, j);
    var o := Offset(j, step);
    var tail := words[o..];
    assert Slices(tail, maxTokens, step)[0] == tail[..Min(maxTokens, |tail|)];
    PrefixOfSuffix(words, o, Min(maxTokens, |tail|));
  }
}
