/** `AudioGenerator._split_text_for_tts`: the greedy chunker that keeps each request to the
    speech service under a character budget, splitting at sentence ends and, for an over-long
    sentence, at word boundaries. */
module Chunking {
  import opened Outcomes
  import opened Strings
  import opened Rewrite

  /** The budget `generate_audio` uses. */
  const DefaultMaxChars: int := 4000

  // ---------------------------------------------------------------------------
  // Sentences: re.split(r'(?<=[.!?])\s+', text)
  // ---------------------------------------------------------------------------

  predicate EndsSentence(c: char) { c == '.' || c == '!' || c == '?' }

  /** The pattern matches at `j`: whitespace right after a sentence end. */
  predicate BreakAt(s: string, j: nat)
    requires 1 <= j < |s|
  {
    EndsSentence(s[j - 1]) && IsSpace(s[j])
  }

  /** The first match at or after `i`. */
  function SentenceBreak(s: string, i: nat): (r: Option<nat>)
    requires 1 <= i
    ensures r.Some? ==> i <= r.value < |s| && BreakAt(s, r.value)
    decreases |s| - i
  {
    if i >= |s| then None
    else if BreakAt(s, i) then Some(i)
    else SentenceBreak(s, i + 1)
  }

  /** The search finds the first match, and none when there is none. */
  lemma {:induction false} SentenceBreakFirst(s: string, i: nat)
    requires 1 <= i
    ensures SentenceBreak(s, i).Some? ==> forall j :: i <= j < SentenceBreak(s, i).value ==> !BreakAt(s, j)
    ensures SentenceBreak(s, i).None? <==> forall j :: i <= j < |s| ==> !BreakAt(s, j)
    decreases |s| - i
  {
    if i < |s| && !BreakAt(s, i) {
      SentenceBreakFirst(s, i + 1);
    }
  }

  /** The length of the whitespace run starting at index `i`. */
  function RunAt(s: string, i: nat): (n: nat)
    requires i <= |s|
    ensures i + n <= |s|
    ensures i < |s| && IsSpace(s[i]) ==> n >= 1
    ensures n > 0 ==> IsSpace(s[i + n - 1])
    ensures i + n < |s| ==> !IsSpace(s[i + n])
    decreases |s| - i
  {
    if i < |s| && IsSpace(s[i]) then 1 + RunAt(s, i + 1) else 0
  }

  /** The sentences of `s` from index `p` on: the text up to the next match, then the
      sentences after the match's whole whitespace run. The text after a run starts with a
      non-blank, so the next search starts one further on. */
  function SentencesFrom(s: string, p: nat): (r: seq<string>)
    requires p <= |s|
    ensures |r| >= 1
    decreases |s| - p
  {
    match SentenceBreak(s, p + 1)
    case None => [s[p..]]
    case Some(i) => [s[p..i]] + SentencesFrom(s, i + RunAt(s, i))
  }

  /** `re.split(r'(?<=[.!?])\s+', text)` */
  function SplitSentences(s: string): (r: seq<string>)
    ensures |r| >= 1
  {
    SentencesFrom(s, 0)
  }

  /** A stripped text splits into non-empty stripped sentences. */
  lemma SentencesStripped(s: string)
    requires s != [] && IsStripped(s)
    ensures forall x :: x in SplitSentences(s) ==> x != [] && IsStripped(x)
  {
    SentencesFromStripped(s, 0);
  }

  lemma {:induction false} SentencesFromStripped(s: string, p: nat)
    requires p < |s| && !IsSpace(s[p]) && !IsSpace(s[|s| - 1])
    ensures forall x :: x in SentencesFrom(s, p) ==> x != [] && IsStripped(x)
    decreases |s| - p, 1
  {
    match SentenceBreak(s, p + 1)
    case None =>
      var x := s[p..];
      assert x[0] == s[p] && x[|x| - 1] == s[|s| - 1];
    case Some(i) => SentencesFromStrippedAt(s, p, i);
  }

  lemma {:induction false} SentencesFromStrippedAt(s: string, p: nat, i: nat)
    requires p < |s| && !IsSpace(s[p]) && !IsSpace(s[|s| - 1])
    requires SentenceBreak(s, p + 1) == Some(i)
    ensures forall x :: x in SentencesFrom(s, p) ==> x != [] && IsStripped(x)
    decreases |s| - p, 0
  {
    var e := i + RunAt(s, i);
    RunInside(s, i);
    SentencesFromStripped(s, e);
    PieceStripped(s, p, i);
    ConsMembers(s[p..i], SentencesFrom(s, e));
  }

  /** A whitespace run ends before a last character that is not blank. */
  lemma RunInside(s: string, i: nat)
    requires i < |s| && IsSpace(s[i]) && !IsSpace(s[|s| - 1])
    ensures i + RunAt(s, i) < |s| && !IsSpace(s[i + RunAt(s, i)])
  {
    assert IsSpace(s[i + RunAt(s, i) - 1]);
  }

  lemma PieceStripped(s: string, p: nat, i: nat)
    requires p < i <= |s| && !IsSpace(s[p]) && !IsSpace(s[i - 1])
    ensures s[p..i] != [] && IsStripped(s[p..i])
  {
    var x := s[p..i];
    assert x[0] == s[p] && x[|x| - 1] == s[i - 1];
  }

  /** In text with single plain spaces only, the sentences joined with spaces give the text. */
  lemma SentencesJoin(s: string)
    requires NoneOf(s, IsOtherSpace) && NoPair(s, IsSpace, IsSpace)
    ensures Join(SplitSentences(s), " ") == s
  {
    SentencesFromJoin(s, 0);
    assert s[0..] == s;
  }

  lemma {:induction false} SentencesFromJoin(s: string, p: nat)
    requires p <= |s| && NoneOf(s, IsOtherSpace) && NoPair(s, IsSpace, IsSpace)
    ensures Join(SentencesFrom(s, p), " ") == s[p..]
    decreases |s| - p, 1
  {
    match SentenceBreak(s, p + 1)
    case None =>
    case Some(i) => SentencesFromJoinAt(s, p, i);
  }

  lemma {:induction false} SentencesFromJoinAt(s: string, p: nat, i: nat)
    requires p <= |s| && NoneOf(s, IsOtherSpace) && NoPair(s, IsSpace, IsSpace)
    requires SentenceBreak(s, p + 1) == Some(i)
    ensures Join(SentencesFrom(s, p), " ") == s[p..]
    decreases |s| - p, 0
  {
    SingleBlank(s, i);
    SentencesFromJoin(s, i + 1);
    JoinAtBlank(s, p, i);
  }

  /** At a match that is a single plain space, the join puts that space back. */
  lemma JoinAtBlank(s: string, p: nat, i: nat)
    requires p <= |s| && SentenceBreak(s, p + 1) == Some(i) && s[i] == ' ' && RunAt(s, i) == 1
    requires Join(SentencesFrom(s, i + 1), " ") == s[i + 1..]
    ensures Join(SentencesFrom(s, p), " ") == s[p..]
  {
    FromAtBlank(s, p, i);
    SplitAround(s, p, i);
    JoinCons(s[p..i], SentencesFrom(s, i + 1), " ");
  }

  /** One step of the split at a match that is a single blank. */
  lemma FromAtBlank(s: string, p: nat, i: nat)
    requires p <= |s| && SentenceBreak(s, p + 1) == Some(i) && RunAt(s, i) == 1
    ensures SentencesFrom(s, p) == [s[p..i]] + SentencesFrom(s, i + 1)
  {
  }

  lemma SplitAround(s: string, p: nat, i: nat)
    requires p <= i < |s| && s[i] == ' '
    ensures s[p..] == s[p..i] + " " + s[i + 1..]
  {
  }

  /** In text with single plain spaces only, a blank is a plain space and a run of one. */
  lemma SingleBlank(s: string, i: nat)
    requires i < |s| && IsSpace(s[i]) && NoneOf(s, IsOtherSpace) && NoPair(s, IsSpace, IsSpace)
    ensures s[i] == ' ' && RunAt(s, i) == 1
  {
    assert !IsOtherSpace(s[i]);
    if i + 1 < |s| {
      assert !IsSpace(s[i + 1]);
    }
  }

  // ---------------------------------------------------------------------------
  // The chunker, one step at a time
  // ---------------------------------------------------------------------------

  /** The list of finished chunks and the text being accumulated (`current_chunk`, or
      `current_word_chunk` inside an over-long sentence). */
  datatype Buffer = Buffer(chunks: seq<string>, current: string)

  /** `if current: chunks.append(current.strip())` */
  function Flush(chunks: seq<string>, current: string): seq<string> {
    if current != [] then chunks + [Strip(current)] else chunks
  }

  /** One word of an over-long sentence. */
  function WordStep(b: Buffer, word: string, max: int): Buffer {
    if |b.current| + |word| + 1 <= max then Buffer(b.chunks, b.current + word + " ")
    else Buffer(Flush(b.chunks, b.current), word + " ")
  }

  function WordsFold(b: Buffer, words: seq<string>, max: int): Buffer
    decreases |words|
  {
    if words == [] then b
    else WordStep(WordsFold(b, words[..|words| - 1], max), words[|words| - 1], max)
  }

  /** The leftover word chunk `w` joins the pending sentence chunk: appended when both fit,
      otherwise the pending chunk is flushed, after the pieces already pushed. */
  function Absorb(current: string, w: Buffer, max: int): Buffer {
    if w.current == [] then Buffer(w.chunks, current)
    else if |current| + |w.current| <= max then Buffer(w.chunks, current + w.current)
    else Buffer(Flush(w.chunks, current), w.current)
  }

  /** One sentence. */
  function SentenceStep(b: Buffer, s: string, max: int): Buffer {
    if |s| > max then Absorb(b.current, WordsFold(Buffer(b.chunks, []), Words(s), max), max)
    else if |b.current| + |s| + 1 <= max then Buffer(b.chunks, b.current + s + " ")
    else Buffer(Flush(b.chunks, b.current), s + " ")
  }

  function SentencesFold(b: Buffer, ss: seq<string>, max: int): Buffer
    decreases |ss|
  {
    if ss == [] then b
    else SentenceStep(SentencesFold(b, ss[..|ss| - 1], max), ss[|ss| - 1], max)
  }

  /** `_split_text_for_tts(text, max)`. */
  function SplitForSpeech(text: string, max: int): seq<string> {
    if |text| <= max then [text]
    else
      var b := SentencesFold(Buffer([], []), SplitSentences(text), max);
      Flush(b.chunks, b.current)
  }

  // ---------------------------------------------------------------------------
  // The imperative chunker
  // ---------------------------------------------------------------------------

  /** The word loop for one over-long sentence, pushing pieces onto `chunks`. */
  method SplitWords(chunks0: seq<string>, words: seq<string>, max: int)
    returns (chunks: seq<string>, wordChunk: string)
    ensures Buffer(chunks, wordChunk) == WordsFold(Buffer(chunks0, []), words, max)
  {
    chunks, wordChunk := chunks0, "";
    var j := 0;
    while j < |words|
      invariant 0 <= j <= |words|
      invariant Buffer(chunks, wordChunk) == WordsFold(Buffer(chunks0, []), words[..j], max)
    {
      var word := words[j];
      if |wordChunk| + |word| + 1 <= max {
        wordChunk := wordChunk + word + " ";
      } else {
        if wordChunk != "" {
          chunks := chunks + [Strip(wordChunk)];
        }
        wordChunk := word + " ";
      }
      assert words[..j + 1][..j] == words[..j];
      j := j + 1;
    }
    assert words[..j] == words;
  }

  /** One turn of the sentence loop. */
  method AddSentence(chunks0: seq<string>, current0: string, sentence: string, max: int)
    returns (chunks: seq<string>, current: string)
    ensures Buffer(chunks, current) == SentenceStep(Buffer(chunks0, current0), sentence, max)
  {
    chunks, current := chunks0, current0;
    if |sentence| > max {
      var wordChunk;
      // The pieces go straight onto `chunks`, ahead of the pending `current`.
      chunks, wordChunk := SplitWords(chunks, Words(sentence), max);
      if wordChunk != "" {
        if |current| + |wordChunk| <= max {
          current := current + wordChunk;
        } else {
          if current != "" {
            chunks := chunks + [Strip(current)];
          }
          current := wordChunk;
        }
      }
    } else {
      if |current| + |sentence| + 1 <= max {
        current := current + sentence + " ";
      } else {
        if current != "" {
          chunks := chunks + [Strip(current)];
        }
        current := sentence + " ";
      }
    }
  }

  lemma SentencesFoldSnoc(ss: seq<string>, k: nat, max: int)
    requires k < |ss|
    ensures SentencesFold(Buffer([], []), ss[..k + 1], max)
      == SentenceStep(SentencesFold(Buffer([], []), ss[..k], max), ss[k], max)
  {
    assert ss[..k + 1][..k] == ss[..k];
  }

  method SplitTextForTts(text: string, max: int) returns (chunks: seq<string>)
    ensures chunks == SplitForSpeech(text, max)
    ensures |text| <= max ==> chunks == [text]
  {
    if |text| <= max {
      return [text];
    }
    chunks := [];
    var current := "";
    var sentences := SplitSentences(text);
    var k := 0;
    while k < |sentences|
      invariant 0 <= k <= |sentences|
      invariant Buffer(chunks, current) == SentencesFold(Buffer([], []), sentences[..k], max)
    {
      SentencesFoldSnoc(sentences, k, max);
      chunks, current := AddSentence(chunks, current, sentences[k], max);
      k := k + 1;
    }
    assert sentences[..k] == sentences;
    if current != "" {
      chunks := chunks + [Strip(current)];
    }
  }

  // ---------------------------------------------------------------------------
  // Every chunk is stripped and within budget, or a single over-long word
  // ---------------------------------------------------------------------------

  /** A single word: non-empty, no whitespace. */
  predicate IsWord(w: string) {
    w != [] && forall i :: 0 <= i < |w| ==> !IsSpace(w[i])
  }

  /** What `_split_text_for_tts` promises of a chunk it builds. */
  predicate ChunkOk(c: string, max: int) {
    IsStripped(c) && (|c| <= max || IsWord(c))
  }

  /** The accumulated text always ends with the space that was added after its last piece, and
      is at most one over budget or a single word plus that space. */
  predicate PendingOk(c: string, max: int) {
    c == [] || (c[|c| - 1] == ' ' && (|c| <= max + 1 || IsWord(c[..|c| - 1])))
  }

  predicate AllOk(chunks: seq<string>, max: int) {
    forall i :: 0 <= i < |chunks| ==> ChunkOk(chunks[i], max)
  }

  predicate BufferOk(b: Buffer, max: int) {
    AllOk(b.chunks, max) && PendingOk(b.current, max)
  }

  lemma StripPending(c: string, max: int)
    requires c != [] && PendingOk(c, max)
    ensures ChunkOk(Strip(c), max)
  {
    var r := Strip(c);
    var k := |c| - |LStrip(c)|;
    if r != [] {
      assert k + |r| < |c| by { assert r[|r| - 1] == c[k + |r| - 1]; }
    }
    if |c| > max + 1 {
      var w := c[..|c| - 1];
      assert r != [] by {
        StripEmptyIffBlank(c);
        assert !IsSpace(c[0]) by { assert c[0] == w[0]; }
      }
      forall i | 0 <= i < |r| ensures !IsSpace(r[i]) { assert r[i] == w[k + i]; }
    }
  }

  lemma FlushOk(chunks: seq<string>, current: string, max: int)
    requires AllOk(chunks, max) && PendingOk(current, max)
    ensures AllOk(Flush(chunks, current), max)
  {
    if current != [] {
      StripPending(current, max);
      var f := chunks + [Strip(current)];
      forall i | 0 <= i < |f| ensures ChunkOk(f[i], max) {
        if i < |chunks| { assert f[i] == chunks[i]; }
      }
    }
  }

  /** Appending `piece + " "` to a pending text that stays within budget. */
  lemma PadOk(c: string, piece: string, max: int)
    requires |c| + |piece| + 1 <= max
    ensures PendingOk(c + piece + " ", max)
  {
    var d := c + piece + " ";
    assert d[|d| - 1] == ' ';
  }

  /** Starting afresh with `piece + " "`. */
  lemma FreshOk(piece: string, max: int)
    requires |piece| <= max || IsWord(piece)
    ensures PendingOk(piece + " ", max)
  {
    var d := piece + " ";
    assert d[|d| - 1] == ' ' && d[..|d| - 1] == piece;
  }

  lemma WordStepOk(b: Buffer, word: string, max: int)
    requires BufferOk(b, max) && IsWord(word)
    ensures BufferOk(WordStep(b, word, max), max)
  {
    if |b.current| + |word| + 1 <= max {
      PadOk(b.current, word, max);
    } else {
      FlushOk(b.chunks, b.current, max);
      FreshOk(word, max);
    }
  }

  lemma {:induction false} WordsFoldOk(b: Buffer, words: seq<string>, max: int)
    requires BufferOk(b, max) && forall w :: w in words ==> IsWord(w)
    ensures BufferOk(WordsFold(b, words, max), max)
    decreases |words|
  {
    if words != [] {
      WordsFoldOk(b, words[..|words| - 1], max);
      assert words[|words| - 1] in words;
      WordStepOk(WordsFold(b, words[..|words| - 1], max), words[|words| - 1], max);
    }
  }

  lemma WordsAreWords(s: string)
    ensures forall w :: w in Words(s) ==> IsWord(w)
  {
    WordsLackSpace(s);
  }

  lemma AbsorbOk(current: string, w: Buffer, max: int)
    requires PendingOk(current, max) && BufferOk(w, max)
    ensures BufferOk(Absorb(current, w, max), max)
  {
    if w.current != [] {
      if |current| + |w.current| <= max {
        var c := current + w.current;
        assert c[|c| - 1] == w.current[|w.current| - 1];
      } else {
        FlushOk(w.chunks, current, max);
      }
    }
  }

  lemma SentenceStepOk(b: Buffer, s: string, max: int)
    requires BufferOk(b, max)
    ensures BufferOk(SentenceStep(b, s, max), max)
  {
    if |s| > max {
      WordsAreWords(s);
      WordsFoldOk(Buffer(b.chunks, []), Words(s), max);
      AbsorbOk(b.current, WordsFold(Buffer(b.chunks, []), Words(s), max), max);
    } else if |b.current| + |s| + 1 <= max {
      PadOk(b.current, s, max);
    } else {
      FlushOk(b.chunks, b.current, max);
      FreshOk(s, max);
    }
  }

  lemma {:induction false} SentencesFoldOk(b: Buffer, ss: seq<string>, max: int)
    requires BufferOk(b, max)
    ensures BufferOk(SentencesFold(b, ss, max), max)
    decreases |ss|
  {
    if ss != [] {
      SentencesFoldOk(b, ss[..|ss| - 1], max);
      SentenceStepOk(SentencesFold(b, ss[..|ss| - 1], max), ss[|ss| - 1], max);
    }
  }

  /** When the text is over budget, every chunk is stripped and at most `max` long, except a
      single word longer than `max`, which is its own chunk. */
  lemma ChunksWithinBudget(text: string, max: int)
    requires |text| > max
    ensures forall c :: c in SplitForSpeech(text, max) ==> ChunkOk(c, max)
  {
    var b := SentencesFold(Buffer([], []), SplitSentences(text), max);
    SentencesFoldOk(Buffer([], []), SplitSentences(text), max);
    FlushOk(b.chunks, b.current, max);
  }

  // ---------------------------------------------------------------------------
  // No chunk is empty when the text is stripped
  // ---------------------------------------------------------------------------

  /** Accumulated text starts with the first character of a sentence or a word. */
  predicate Filled(c: string) { c == [] || !IsSpace(c[0]) }

  predicate NoEmptyChunk(chunks: seq<string>) {
    forall i :: 0 <= i < |chunks| ==> chunks[i] != []
  }

  predicate FilledBuffer(b: Buffer) { NoEmptyChunk(b.chunks) && Filled(b.current) }

  lemma FlushFilled(chunks: seq<string>, current: string)
    requires NoEmptyChunk(chunks) && Filled(current)
    ensures NoEmptyChunk(Flush(chunks, current))
  {
    if current != [] {
      StripEmptyIffBlank(current);
      var f := chunks + [Strip(current)];
      forall i | 0 <= i < |f| ensures f[i] != [] {
        if i < |chunks| { assert f[i] == chunks[i]; }
      }
    }
  }

  /** Appending to accumulated text keeps its first character, or starts with the piece. */
  lemma AppendFilled(c: string, piece: string)
    requires Filled(c) && (c == [] ==> Filled(piece))
    ensures Filled(c + piece)
  {
    if c == [] { assert c + piece == piece; }
  }

  lemma WordStepFilled(b: Buffer, word: string, max: int)
    requires FilledBuffer(b) && IsWord(word)
    ensures FilledBuffer(WordStep(b, word, max))
  {
    AppendFilled(word, " ");
    if |b.current| + |word| + 1 <= max {
      AppendFilled(b.current, word);
      AppendFilled(b.current + word, " ");
    } else {
      FlushFilled(b.chunks, b.current);
    }
  }

  lemma {:induction false} WordsFoldFilled(b: Buffer, words: seq<string>, max: int)
    requires FilledBuffer(b) && forall w :: w in words ==> IsWord(w)
    ensures FilledBuffer(WordsFold(b, words, max))
    decreases |words|
  {
    if words != [] {
      WordsFoldFilled(b, words[..|words| - 1], max);
      assert words[|words| - 1] in words;
      WordStepFilled(WordsFold(b, words[..|words| - 1], max), words[|words| - 1], max);
    }
  }

  lemma AbsorbFilled(current: string, w: Buffer, max: int)
    requires Filled(current) && FilledBuffer(w)
    ensures FilledBuffer(Absorb(current, w, max))
  {
    if w.current != [] {
      if |current| + |w.current| <= max {
        AppendFilled(current, w.current);
      } else {
        FlushFilled(w.chunks, current);
      }
    }
  }

  lemma SentenceStepFilled(b: Buffer, s: string, max: int)
    requires FilledBuffer(b) && s != [] && IsStripped(s)
    ensures FilledBuffer(SentenceStep(b, s, max))
  {
    if |s| > max {
      WordsAreWords(s);
      WordsFoldFilled(Buffer(b.chunks, []), Words(s), max);
      AbsorbFilled(b.current, WordsFold(Buffer(b.chunks, []), Words(s), max), max);
    } else {
      AppendFilled(s, " ");
      if |b.current| + |s| + 1 <= max {
        AppendFilled(b.current, s);
        AppendFilled(b.current + s, " ");
      } else {
        FlushFilled(b.chunks, b.current);
      }
    }
  }

  lemma {:induction false} SentencesFoldFilled(b: Buffer, ss: seq<string>, max: int)
    requires FilledBuffer(b) && forall x :: x in ss ==> x != [] && IsStripped(x)
    ensures FilledBuffer(SentencesFold(b, ss, max))
    decreases |ss|
  {
    if ss != [] {
      var init := ss[..|ss| - 1];
      forall x | x in init ensures x != [] && IsStripped(x) {
        assert x in ss;
      }
      SentencesFoldFilled(b, init, max);
      assert ss[|ss| - 1] in ss;
      SentenceStepFilled(SentencesFold(b, init, max), ss[|ss| - 1], max);
    }
  }

  /** For a non-empty stripped text, as `_preprocess_text_for_speech` produces, no chunk is
      empty. */
  lemma ChunksNonEmpty(text: string, max: int)
    requires text != [] && IsStripped(text)
    ensures forall c :: c in SplitForSpeech(text, max) ==> c != []
  {
    if |text| > max {
      SentencesStripped(text);
      var b := SentencesFold(Buffer([], []), SplitSentences(text), max);
      SentencesFoldFilled(Buffer([], []), SplitSentences(text), max);
      FlushFilled(b.chunks, b.current);
    }
  }

  /** A word that ends a sentence, followed by one blank, splits into the word and an empty
      sentence. */
  lemma TrailingBlankSentences(w: string)
    requires IsWord(w) && EndsSentence(w[|w| - 1])
    ensures SplitSentences(w + " ") == [w, []]
  {
    var t := w + " ";
    var n := |w|;
    assert BreakAt(t, n);
    forall j | 1 <= j < n ensures !BreakAt(t, j) { assert t[j] == w[j]; }
    SentenceBreakFirst(t, 1);
    assert SentenceBreak(t, 1) == Some(n);
    assert RunAt(t, n) == 1 by { assert RunAt(t, n + 1) == 0; }
    assert SentenceBreak(t, n + 2) == None;
    assert SentencesFrom(t, n + 1) == [t[n + 1..]];
    assert t[n + 1..] == [] && t[0..n] == w;
  }

  /** A word of exactly `max` characters that ends a sentence, followed by one blank, is split
      into that word and an empty chunk: the blank leaves a second, empty sentence, which
      overflows the buffer, so the word is flushed and a lone " " is left to be flushed as "". */
  lemma TrailingBlankChunk(w: string, max: int)
    requires IsWord(w) && |w| == max && EndsSentence(w[|w| - 1])
    ensures SplitForSpeech(w + " ", max) == [w, ""]
  {
    TrailingBlankSentences(w);
    var ss: seq<string> := [w, []];
    var b0 := Buffer([], []);
    assert ss[..1] == [w] && ss[..2] == ss;
    assert SentencesFold(b0, [w][..0], max) == b0;
    var b1 := SentencesFold(b0, [w], max);
    assert b1 == SentenceStep(b0, w, max) == Buffer([], w + " ");
    assert SentencesFold(b0, ss, max) == SentenceStep(b1, [], max);
    assert Strip(w + " ") == w by {
      assert LStrip(w + " ") == w + " ";
      assert (w + " ")[..|w|] == w;
      assert RStrip(w + " ") == RStrip(w) == w;
    }
    assert SentenceStep(b1, [], max) == Buffer([w], " ");
    assert Strip(" ") == [] by { assert IsSpace(' '); }
  }

  /** With max_chars 5, "aaaa. " is split into ["aaaa.", ""]. */
  lemma EmptyChunkOfUnstripped(w: string)
    requires w == "aaaa."
    ensures SplitForSpeech(w + " ", 5) == [w, ""]
  {
    assert forall i :: 0 <= i < |w| ==> w[i] in w;
    assert forall ch :: ch in w ==> !IsSpace(ch);
    TrailingBlankChunk(w, 5);
  }

  // ---------------------------------------------------------------------------
  // Short sentences are kept whole and in order
  // ---------------------------------------------------------------------------

  predicate Sentence(x: string) { x != [] && IsStripped(x) }

  lemma JoinSnoc(parts: seq<string>, x: string)
    ensures Join(parts + [x], " ") == if parts == [] then x else Join(parts, " ") + " " + x
  {
    if parts == [] {
      assert parts + [x] == [x];
    } else {
      JoinAppend(parts, x, " ");
    }
  }

  /** The state after sentences that all fit: what is pending is the last group joined with
      spaces plus one space, and flushing it gives the sentences joined with spaces. */
  ghost predicate Tracks(b: Buffer, ss: seq<string>) {
    (ss == [] ==> b == Buffer([], []))
    && (ss != [] ==> b.current != [] && b.current == Strip(b.current) + " " && Sentence(Strip(b.current)))
    && Join(Flush(b.chunks, b.current), " ") == Join(ss, " ")
  }

  lemma StartTracks(s: string)
    requires Sentence(s)
    ensures Tracks(Buffer([], s + " "), [s])
  {
    StripPadded(s);
  }

  /** The pending group grows by one sentence. */
  lemma GrowGroup(x: string, s: string)
    requires Sentence(x) && Sentence(s)
    ensures Sentence(x + " " + s) && Strip(x + " " + s + " ") == x + " " + s
  {
    var y := x + " " + s;
    assert y[0] == x[0] && y[|y| - 1] == s[|s| - 1];
    StripPadded(y);
  }

  lemma JoinGrow(chunks: seq<string>, x: string, s: string)
    ensures Join(chunks + [x + " " + s], " ") == Join(chunks + [x], " ") + " " + s
  {
    JoinSnoc(chunks, x);
    JoinSnoc(chunks, x + " " + s);
    if chunks != [] {
      assert Join(chunks, " ") + " " + x + " " + s == Join(chunks, " ") + " " + (x + " " + s);
    }
  }

  lemma ExtendTracks(b: Buffer, ss: seq<string>, s: string)
    requires Tracks(b, ss) && ss != [] && Sentence(s)
    ensures Tracks(Buffer(b.chunks, b.current + s + " "), ss + [s])
  {
    var x := Strip(b.current);
    var y := x + " " + s;
    assert b.current + s + " " == y + " ";
    GrowGroup(x, s);
    assert Join(Flush(b.chunks, y + " "), " ") == Join(ss + [s], " ") by {
      assert Flush(b.chunks, b.current) == b.chunks + [x];
      assert Flush(b.chunks, y + " ") == b.chunks + [y];
      JoinGrow(b.chunks, x, s);
      JoinSnoc(ss, s);
    }
  }

  lemma RestartTracks(b: Buffer, ss: seq<string>, s: string)
    requires Tracks(b, ss) && Sentence(s)
    ensures Tracks(Buffer(Flush(b.chunks, b.current), s + " "), ss + [s])
  {
    StripPadded(s);
    var f := Flush(b.chunks, b.current);
    JoinSnoc(ss, s);
    JoinSnoc(f, s);
    assert Flush(f, s + " ") == f + [s];
    if ss == [] {
      assert f == [];
    } else {
      assert f != [];
    }
  }

  lemma StepTracks(b: Buffer, ss: seq<string>, s: string, max: int)
    requires Tracks(b, ss) && Sentence(s) && |s| <= max
    ensures Tracks(SentenceStep(b, s, max), ss + [s])
  {
    if |b.current| + |s| + 1 <= max {
      if b.current == [] {
        assert ss == [] && b == Buffer([], []);
        assert ss + [s] == [s];
        assert b.current + s + " " == s + " ";
        StartTracks(s);
      } else {
        ExtendTracks(b, ss, s);
      }
    } else {
      RestartTracks(b, ss, s);
    }
  }

  lemma FoldStepTracks(ss: seq<string>, max: int)
    requires ss != []
    requires Tracks(SentencesFold(Buffer([], []), ss[..|ss| - 1], max), ss[..|ss| - 1])
    requires Sentence(ss[|ss| - 1]) && |ss[|ss| - 1]| <= max
    ensures Tracks(SentencesFold(Buffer([], []), ss, max), ss)
  {
    var init := ss[..|ss| - 1];
    var last := ss[|ss| - 1];
    StepTracks(SentencesFold(Buffer([], []), init, max), init, last, max);
    FoldLast(ss, max);
  }

  lemma FoldLast(ss: seq<string>, max: int)
    requires ss != []
    ensures ss[..|ss| - 1] + [ss[|ss| - 1]] == ss
    ensures SentencesFold(Buffer([], []), ss, max)
      == SentenceStep(SentencesFold(Buffer([], []), ss[..|ss| - 1], max), ss[|ss| - 1], max)
  {
  }

  lemma {:induction false} FoldTracks(ss: seq<string>, max: int)
    requires forall x :: x in ss ==> Sentence(x) && |x| <= max
    ensures Tracks(SentencesFold(Buffer([], []), ss, max), ss)
    decreases |ss|
  {
    if ss != [] {
      var init := ss[..|ss| - 1];
      forall x | x in init ensures Sentence(x) && |x| <= max { assert x in ss; }
      FoldTracks(init, max);
      assert ss[|ss| - 1] in ss;
      FoldStepTracks(ss, max);
    }
  }

  /** When every sentence is non-empty, stripped and within budget, the chunks joined with
      spaces are the sentences joined with spaces. */
  lemma ChunksKeepSentences(text: string, max: int)
    requires |text| > max
    requires forall x :: x in SplitSentences(text) ==> Sentence(x) && |x| <= max
    ensures Join(SplitForSpeech(text, max), " ") == Join(SplitSentences(text), " ")
  {
    FoldTracks(SplitSentences(text), max);
  }

  /** For text with single spaces and no blank at either end (what the speech preparation
      produces), when no sentence is over budget the chunks joined with spaces give back the
      text. */
  lemma ChunksRebuildText(text: string, max: int)
    requires IsStripped(text) && NoneOf(text, IsOtherSpace) && NoPair(text, IsSpace, IsSpace)
    requires forall x :: x in SplitSentences(text) ==> |x| <= max
    ensures Join(SplitForSpeech(text, max), " ") == text
  {
    if |text| > max {
      assert text != [] by { assert "" in SplitSentences(""); }
      SentencesStripped(text);
      ChunksKeepSentences(text, max);
      SentencesJoin(text);
    }
  }

  // ---------------------------------------------------------------------------
  // Pieces of an over-long sentence overtake the pending chunk
  // ---------------------------------------------------------------------------

  lemma NonSpaceSpanOf(w: string, rest: string)
    requires IsWord(w)
    requires rest == [] || IsSpace(rest[0])
    ensures NonSpaceSpan(w + rest) == |w|
  {
    var t := w + rest;
    assert forall i :: 0 <= i < |w| ==> t[i] == w[i];
    assert rest != [] ==> t[|w|] == rest[0];
  }

  lemma TwoWords(u: string, v: string)
    requires IsWord(u) && IsWord(v)
    ensures Words(u + " " + v) == [u, v]
  {
    assert u + " " + v == u + (" " + v);
    WordThen(u, " " + v);
    SpaceThenWord(v);
  }

  /** A word followed by nothing or by whitespace is the first word. */
  lemma WordThen(w: string, rest: string)
    requires IsWord(w)
    requires rest == [] || IsSpace(rest[0])
    ensures Words(w + rest) == [w] + Words(rest)
  {
    var s := w + rest;
    assert s[0] == w[0];
    assert SpaceSpan(s) == 0;
    assert s[0..] == s;
    NonSpaceSpanOf(w, rest);
    assert s[..|w|] == w && s[|w|..] == rest;
  }

  /** One space, then a single word. */
  lemma SpaceThenWord(v: string)
    requires IsWord(v)
    ensures Words(" " + v) == [v]
  {
    var s := " " + v;
    assert s[1..] == v;
    assert SpaceSpan(s) == 1 by { assert s[1..][0] == v[0]; }
    assert s[SpaceSpan(s)..] == v + [];
    WordThen(v, []);
    assert Words([]) == [];
  }

  /** Two words joined by a blank hold no match when the first does not end a sentence. */
  lemma NoBreakInPair(u: string, v: string)
    requires IsWord(u) && IsWord(v) && !EndsSentence(u[|u| - 1])
    ensures var s := u + " " + v; forall j :: 1 <= j < |s| ==> !BreakAt(s, j)
  {
    var s := u + " " + v;
    forall j | 1 <= j < |s| ensures !BreakAt(s, j) {
      if j < |u| { assert s[j] == u[j]; }
      else if j == |u| { assert s[j - 1] == u[|u| - 1]; }
      else { assert s[j] == v[j - |u| - 1]; }
    }
  }

  /** Past the blank after `first`, the text `u v` holds no match. */
  lemma NoBreakAfter(first: string, u: string, v: string)
    requires IsWord(u) && IsWord(v) && !EndsSentence(u[|u| - 1])
    ensures SentenceBreak(first + " " + (u + " " + v), |first| + 2) == None
  {
    var second := u + " " + v;
    var t := first + " " + second;
    NoBreakInPair(u, v);
    forall j | |first| + 2 <= j < |t| ensures !BreakAt(t, j) {
      var k := j - |first| - 1;
      assert t[j] == second[k] && t[j - 1] == second[k - 1];
      assert !BreakAt(second, k);
    }
    SentenceBreakFirst(t, |first| + 2);
  }

  /** The first break is the blank after the word. */
  lemma FirstBreak(first: string, rest: string)
    requires IsWord(first) && EndsSentence(first[|first| - 1])
    ensures SentenceBreak(first + " " + rest, 1) == Some(|first|)
  {
    var t := first + " " + rest;
    forall j | 1 <= j < |first| ensures !BreakAt(t, j) { assert t[j] == first[j]; }
    assert BreakAt(t, |first|) by { assert t[|first| - 1] == first[|first| - 1]; }
    SentenceBreakScan(t, 1, |first|);
  }

  /** The scan finds the first break at or after `i`. */
  lemma {:induction false} SentenceBreakScan(t: string, i: nat, b: nat)
    requires 1 <= i <= b < |t| && BreakAt(t, b)
    requires forall j :: i <= j < b ==> !BreakAt(t, j)
    ensures SentenceBreak(t, i) == Some(b)
    decreases b - i
  {
    if i < b {
      SentenceBreakScan(t, i + 1, b);
    }
  }

  /** Cutting `u v` when `u` fits the budget alone and `u v` does not. */
  lemma CutTwoWords(u: string, v: string, max: int)
    requires IsWord(u) && |u| + 1 <= max && |u| + |v| + 2 > max
    ensures WordsFold(Buffer([], []), [u, v], max) == Buffer([u], v + " ")
  {
    WordsFoldOne(u, max);
    WordsFoldSecond(u, v, max);
    FlushLast([], u);
    assert [] + [u] == [u];
  }

  lemma WordsFoldOne(u: string, max: int)
    requires |u| + 1 <= max
    ensures WordsFold(Buffer([], []), [u], max) == Buffer([], u + " ")
  {
    assert [u][..0] == [];
  }

  lemma WordsFoldSecond(u: string, v: string, max: int)
    ensures WordsFold(Buffer([], []), [u, v], max) == WordStep(WordsFold(Buffer([], []), [u], max), v, max)
  {
    assert [u, v][..1] == [u];
  }

  lemma TwoSentences(first: string, u: string, v: string)
    requires IsWord(first) && EndsSentence(first[|first| - 1])
    requires IsWord(u) && IsWord(v) && !EndsSentence(u[|u| - 1])
    ensures SplitSentences(first + " " + u + " " + v) == [first, u + " " + v]
  {
    var second := u + " " + v;
    var t := first + " " + second;
    assert first + " " + u + " " + v == t;
    FirstBreak(first, second);
    BlankBeforeWord(first, second);
    AroundBlank(first, second);
    NoBreakAfter(first, u, v);
    SplitAtBlank(t, |first|);
  }

  /** The blank between `first` and a word on its right is a run of one. */
  lemma BlankBeforeWord(first: string, second: string)
    requires second != [] && !IsSpace(second[0])
    ensures RunAt(first + " " + second, |first|) == 1
  {
    var t := first + " " + second;
    assert t[|first|] == ' ' && t[|first| + 1] == second[0];
    RunOfOne(t, |first|);
  }

  lemma AroundBlank(first: string, second: string)
    ensures var t := first + " " + second; t[0..|first|] == first && t[|first| + 1..] == second
  {
    var t := first + " " + second;
    assert t[0..|first|] == first && t[|first| + 1..] == second;
  }

  lemma RunOfOne(t: string, i: nat)
    requires i + 1 < |t| && t[i] == ' ' && !IsSpace(t[i + 1])
    ensures RunAt(t, i) == 1
  {
    assert RunAt(t, i + 1) == 0;
  }

  /** A text with one single-blank match and none after it splits in two. */
  lemma SplitAtBlank(t: string, i: nat)
    requires SentenceBreak(t, 1) == Some(i) && RunAt(t, i) == 1 && SentenceBreak(t, i + 2) == None
    ensures SplitSentences(t) == [t[0..i], t[i + 1..]]
  {
    assert SentencesFrom(t, i + 1) == [t[i + 1..]];
  }

  /** The over-long sentence `u v` after a pending text `p`: `u` is pushed at once. */
  lemma LongSentenceStep(p: string, u: string, v: string, max: int)
    requires IsWord(u) && IsWord(v) && |u| + 1 <= max && |u| + |v| + 1 > max
    ensures SentenceStep(Buffer([], p), u + " " + v, max) == Absorb(p, Buffer([u], v + " "), max)
  {
    var second := u + " " + v;
    assert |second| > max;
    var ws := Words(second);
    assert ws == [u, v] by { TwoWords(u, v); }
    assert WordsFold(Buffer([], []), ws, max) == Buffer([u], v + " ") by { CutTwoWords(u, v, max); }
  }

  lemma FoldTwo(first: string, second: string, max: int)
    requires |first| + 1 <= max
    ensures SentencesFold(Buffer([], []), [first, second], max)
      == SentenceStep(Buffer([], first + " "), second, max)
  {
    assert [first, second][..1] == [first];
    assert SentencesFold(Buffer([], []), [first], max) == Buffer([], first + " ") by {
      assert [first][..0] == [];
    }
  }

  /** The ordering caveat: a sentence `first` still pending when the next, over-long sentence
      `u v` is cut into words comes out after the piece `u`, so the chunks are `u`, `first`,
      `v`, not in text order. */
  lemma PendingSentenceOvertaken(first: string, u: string, v: string, max: int)
    requires IsWord(first) && EndsSentence(first[|first| - 1])
    requires IsWord(u) && IsWord(v) && !EndsSentence(u[|u| - 1])
    requires |first| + 1 <= max && |u| + 1 <= max
    requires |u| + |v| + 1 > max && |first| + |v| + 2 > max
    ensures SplitForSpeech(first + " " + u + " " + v, max) == [u, first, v]
  {
    var second := u + " " + v;
    TwoSentences(first, u, v);
    FoldTwo(first, second, max);
    LongSentenceStep(first + " ", u, v, max);
    AbsorbOvertakes(first, v, u, max);
    FlushLast([u, first], v);
    SplitForSpeechLong(first + " " + u + " " + v, max);
  }

  /** The pending sentence and the leftover word do not fit together: the sentence is pushed
      after the piece already pushed. */
  lemma AbsorbOvertakes(first: string, v: string, u: string, max: int)
    requires IsWord(first) && IsWord(v) && |first| + |v| + 2 > max
    ensures Absorb(first + " ", Buffer([u], v + " "), max) == Buffer([u, first], v + " ")
  {
    assert |first + " "| + |v + " "| > max;
    StripPadded(first);
    assert Flush([u], first + " ") == [u] + [first];
    assert [u] + [first] == [u, first];
  }

  lemma FlushLast(chunks: seq<string>, v: string)
    requires IsWord(v)
    ensures Flush(chunks, v + " ") == chunks + [v]
  {
    StripPadded(v);
  }

  lemma SplitForSpeechLong(text: string, max: int)
    requires |text| > max
    ensures SplitForSpeech(text, max)
      == Flush(SentencesFold(Buffer([], []), SplitSentences(text), max).chunks,
               SentencesFold(Buffer([], []), SplitSentences(text), max).current)
  {
  }

  /** An instance: with budget 5, `a. bbbb cccc.` gives `bbbb`, `a.`, `cccc.`. */
  lemma BufferedSentenceComesLate(first: string, u: string, v: string)
    requires first == "a." && u == "bbbb" && v == "cccc."
    ensures SplitForSpeech(first + " " + u + " " + v, 5) == [u, first, v]
  {
    assert forall ch :: ch in u ==> ch == 'b';
    assert forall ch :: ch in v ==> ch == 'c' || ch == '.';
    assert forall i :: 0 <= i < |u| ==> u[i] in u;
    assert forall i :: 0 <= i < |v| ==> v[i] in v;
    assert forall i :: 0 <= i < |first| ==> first[i] in first;
    PendingSentenceOvertaken(first, u, v, 5);
  }
}
