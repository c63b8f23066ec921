/** Splitting a script into chunks that fit one speech request (src/wahabot/core/tts.py). */
module Speech {
  import opened Text
  import opened Sequences

  /** The punctuation that ends a sentence when white space follows. */
  predicate EndsSentence(c: char) {
    c == '.' || c == '!' || c == '?' || c == '…'
  }

  /** Where the first sentence ends: the first white space right behind an end mark, or the length. */
  function SentenceEnd(s: string, i: nat): (n: nat)
    requires 0 < i <= |s|
    ensures i <= n <= |s|
    ensures n < |s| ==> EndsSentence(s[n - 1]) && IsSpace(s[n])
    ensures forall k | i <= k < n :: !(EndsSentence(s[k - 1]) && IsSpace(s[k]))
    decreases |s| - i
  {
    if i == |s| then i
    else if EndsSentence(s[i - 1]) && IsSpace(s[i]) then i
    else SentenceEnd(s, i + 1)
  }

  /** Where the white space from n on ends. */
  function GapEnd(s: string, n: nat): (e: nat)
    requires n <= |s|
    ensures n <= e <= |s|
  {
    n + SpaceRun(s[n..])
  }

  /** The pieces between the runs of white space behind end marks. */
  function Sentences(s: string): seq<string>
    decreases |s|
  {
    if s == "" then [""]
    else
      var n := SentenceEnd(s, 1);
      if n == |s| then [s] else [s[..n]] + Sentences(s[GapEnd(s, n)..])
  }

  lemma {:induction false} DropSpaces(s: string)
    ensures Words(s[SpaceRun(s)..]) == Words(s)
  {
    if s != "" && IsSpace(s[0]) {
      DropSpaces(s[1..]);
      assert s[1..][SpaceRun(s[1..])..] == s[SpaceRun(s)..];
    } else {
      assert s[0..] == s;
    }
  }

  lemma FlattenFirst(first: string, rest: seq<string>)
    ensures FlattenWords([first] + rest) == Words(first) + FlattenWords(rest)
    ensures FlattenWords([first]) == Words(first)
  {
    hide Words;
    assert ([first] + rest)[1..] == rest && [first][1..] == [];
  }

  /** The words of a text cut at white space, which is dropped. */
  lemma WordsOfCut(s: string, n: nat)
    requires n < |s| && IsSpace(s[n])
    ensures Words(s) == Words(s[..n]) + Words(s[GapEnd(s, n)..])
  {
    hide Words, IsSpace;
    assert s == s[..n] + s[n..];
    assert s[n..][SpaceRun(s[n..])..] == s[GapEnd(s, n)..];
    DropSpaces(s[n..]);
    WordsConcat(s[..n], s[n..]);
  }

  /** Cutting into sentences keeps every word. */
  lemma {:induction false} SentencesKeepWords(s: string)
    ensures FlattenWords(Sentences(s)) == Words(s)
    decreases |s|
  {
    hide Words, IsSpace, EndsSentence, SentenceEnd, FlattenWords, GapEnd;
    if s == "" {
      FlattenFirst("", []);
    } else {
      var n := SentenceEnd(s, 1);
      if n == |s| {
        FlattenFirst(s, []);
      } else {
        var rest := s[GapEnd(s, n)..];
        SentencesKeepWords(rest);
        WordsOfCut(s, n);
        FlattenFirst(s[..n], Sentences(rest));
      }
    }
  }

  /** No white space stands behind an end mark inside. */
  predicate OneSentence(s: string) {
    forall k | 0 < k < |s| && EndsSentence(s[k - 1]) :: !IsSpace(s[k])
  }

  predicate EndsWithMark(s: string) {
    s != "" && EndsSentence(s[|s| - 1])
  }

  lemma FirstSentence(s: string)
    requires s != ""
    ensures var n := SentenceEnd(s, 1); OneSentence(s[..n]) && (n < |s| ==> EndsWithMark(s[..n]))
  {
    hide EndsSentence, IsSpace;
    var n := SentenceEnd(s, 1);
    var first := s[..n];
    forall k | 0 < k < |first| && EndsSentence(first[k - 1])
      ensures !IsSpace(first[k])
    {
      assert first[k - 1] == s[k - 1] && first[k] == s[k];
    }
  }

  /** A text is cut behind every end mark that white space follows, and nowhere else. */
  lemma {:induction false} CutAtEveryEnd(s: string)
    ensures var ss := Sentences(s);
            && (forall i | 0 <= i < |ss| :: OneSentence(ss[i]))
            && (forall i | 0 <= i < |ss| - 1 :: EndsWithMark(ss[i]))
    decreases |s|
  {
    hide OneSentence, EndsWithMark, EndsSentence, IsSpace;
    if s == "" {
      NothingToCut();
    } else {
      FirstSentence(s);
      var n := SentenceEnd(s, 1);
      if n < |s| {
        var rest := s[GapEnd(s, n)..];
        CutAtEveryEnd(rest);
        assert Sentences(s) == [s[..n]] + Sentences(rest);
      } else {
        assert s[..n] == s;
      }
    }
  }

  lemma NothingToCut()
    ensures OneSentence("")
  {
  }

  // ----- packing pieces into chunks -----

  function Open(current: string): seq<string> {
    if current == "" then [] else [current]
  }

  /** Each piece goes behind the one before it, with a space, as long as the chunk stays within the limit. */
  function Pack(pieces: seq<string>, limit: int): seq<seq<string>> {
    if pieces == [] then []
    else
      var groups, p := Pack(pieces[..|pieces| - 1], limit), pieces[|pieces| - 1];
      var n := |groups|;
      if n > 0 && |Join(groups[n - 1], " ")| + 1 + |p| <= limit then groups[..n - 1] + [groups[n - 1] + [p]]
      else groups + [[p]]
  }

  /** A cut of the pieces into neighbouring groups: no group of several is over the limit, and none could
      have taken the first piece of the next. */
  ghost predicate Packing(groups: seq<seq<string>>, pieces: seq<string>, limit: int) {
    && Flatten(groups) == pieces
    && (forall i | 0 <= i < |groups| :: groups[i] != [] && (|groups[i]| == 1 || |Join(groups[i], " ")| <= limit))
    && (forall i | 0 < i < |groups| :: |Join(groups[i - 1], " ")| + 1 + |groups[i][0]| > limit)
  }

  lemma JoinedLength(g: seq<string>, p: string)
    requires g != []
    ensures |Join(g + [p], " ")| == |Join(g, " ")| + 1 + |p|
  {
    JoinAppend(g, [p], " ");
  }

  lemma FlattenTail<T>(groups: seq<seq<T>>, g: seq<T>)
    ensures Flatten(groups + [g]) == Flatten(groups) + g
  {
    FlattenConcat(groups, [g]);
    assert [g][1..] == [];
  }

  lemma PackingGrows(front: seq<seq<string>>, g: seq<string>, p: string, pieces: seq<string>, limit: int)
    requires Packing(front + [g], pieces, limit) && |Join(g, " ")| + 1 + |p| <= limit
    ensures Packing(front + [g + [p]], pieces + [p], limit)
  {
    hide Flatten, Join;
    var before, after := front + [g], front + [g + [p]];
    assert before[|front|] == g;
    assert forall i | 0 <= i < |front| :: before[i] == front[i] == after[i];
    FlattenTail(front, g);
    FlattenTail(front, g + [p]);
    JoinedLength(g, p);
    assert Flatten(front) + (g + [p]) == (Flatten(front) + g) + [p];
  }

  lemma PackingStarts(groups: seq<seq<string>>, p: string, pieces: seq<string>, limit: int)
    requires Packing(groups, pieces, limit)
    requires groups != [] ==> |Join(groups[|groups| - 1], " ")| + 1 + |p| > limit
    ensures Packing(groups + [[p]], pieces + [p], limit)
  {
    hide Flatten, Join;
    var after := groups + [[p]];
    assert forall i | 0 <= i < |groups| :: after[i] == groups[i];
    FlattenTail(groups, [p]);
  }

  lemma {:induction false} PackIsPacking(pieces: seq<string>, limit: int)
    ensures Packing(Pack(pieces, limit), pieces, limit)
  {
    hide Packing, Join;
    if pieces == [] {
      NoGroups(limit);
    } else {
      var init, p := pieces[..|pieces| - 1], pieces[|pieces| - 1];
      var before := Pack(init, limit);
      PackIsPacking(init, limit);
      assert pieces == init + [p];
      if before != [] && |Join(before[|before| - 1], " ")| + 1 + |p| <= limit {
        var front, g := before[..|before| - 1], before[|before| - 1];
        assert before == front + [g];
        PackingGrows(front, g, p, init, limit);
      } else {
        PackingStarts(before, p, init, limit);
      }
    }
  }

  lemma NoGroups(limit: int)
    ensures Flatten<string>([]) == [] && Packing([], [], limit)
  {
  }

  lemma PackingShrinks(front: seq<seq<string>>, g: seq<string>, p: string, pieces: seq<string>, limit: int)
    requires g != [] && Packing(front + [g + [p]], pieces + [p], limit)
    ensures Packing(front + [g], pieces, limit) && |Join(g, " ")| + 1 + |p| <= limit
  {
    hide Flatten, Join;
    var before, after := front + [g], front + [g + [p]];
    assert after[|front|] == g + [p];
    assert forall i | 0 <= i < |front| :: before[i] == front[i] == after[i];
    FlattenTail(front, g);
    FlattenTail(front, g + [p]);
    JoinedLength(g, p);
    assert Flatten(front) + (g + [p]) == (Flatten(front) + g) + [p];
    SameInit(Flatten(front) + g, pieces, p);
  }

  lemma PackingDrops(front: seq<seq<string>>, p: string, pieces: seq<string>, limit: int)
    requires Packing(front + [[p]], pieces + [p], limit)
    ensures Packing(front, pieces, limit) && (front != [] ==> |Join(front[|front| - 1], " ")| + 1 + |p| > limit)
  {
    hide Flatten, Join;
    var after := front + [[p]];
    assert forall i | 0 <= i < |front| :: front[i] == after[i];
    assert after[|front|] == [p];
    FlattenTail(front, [p]);
    SameInit(Flatten(front), pieces, p);
  }

  lemma SameInit(a: seq<string>, b: seq<string>, p: string)
    requires a + [p] == b + [p]
    ensures a == b
  {
    assert (a + [p])[..|a|] == a && (b + [p])[..|b|] == b;
  }

  /** The last group ends with the last piece. */
  lemma LastPiece(groups: seq<seq<string>>, pieces: seq<string>, limit: int)
    requires Packing(groups, pieces, limit) && groups != []
    ensures var g := groups[|groups| - 1];
            g != [] && pieces != [] && g[|g| - 1] == pieces[|pieces| - 1]
  {
    hide Flatten, Join;
    var front, g := groups[..|groups| - 1], groups[|groups| - 1];
    assert groups == front + [g];
    FlattenTail(front, g);
  }

  lemma NoGroupsNoPieces(pieces: seq<string>, limit: int)
    requires Packing([], pieces, limit)
    ensures pieces == []
  {
  }

  /** Only one cut is such a packing. */
  lemma {:induction false} PackingIsUnique(groups: seq<seq<string>>, pieces: seq<string>, limit: int)
    requires Packing(groups, pieces, limit)
    ensures groups == Pack(pieces, limit)
    decreases |pieces|
  {
    hide Packing, Join;
    if groups == [] {
      NoGroupsNoPieces(pieces, limit);
    } else {
      LastPiece(groups, pieces, limit);
      var front, g := groups[..|groups| - 1], groups[|groups| - 1];
      var init, p := pieces[..|pieces| - 1], pieces[|pieces| - 1];
      var less := g[..|g| - 1];
      assert groups == front + [g] && g == less + [p] && pieces == init + [p];
      if less == [] {
        assert g == [p];
        PackingDrops(front, p, init, limit);
        PackingIsUnique(front, init, limit);
      } else {
        PackingShrinks(front, less, p, init, limit);
        PackingIsUnique(front + [less], init, limit);
        assert (front + [less])[..|front|] == front;
      }
    }
  }

  function Joins(groups: seq<seq<string>>): (chunks: seq<string>)
    ensures |chunks| == |groups| && forall i | 0 <= i < |groups| :: chunks[i] == Join(groups[i], " ")
  {
    seq(|groups|, i requires 0 <= i < |groups| => Join(groups[i], " "))
  }

  predicate IsLong(g: seq<string>, limit: int) {
    |g| == 1 && |g[0]| > limit
  }

  /** One chunk for each group; a sentence over the limit alone is packed word by word instead. */
  function SpeechOf(groups: seq<seq<string>>, limit: int): seq<string> {
    if groups == [] then []
    else
      var g := groups[|groups| - 1];
      SpeechOf(groups[..|groups| - 1], limit) + if IsLong(g, limit) then Joins(Pack(Words(g[0]), limit)) else [Join(g, " ")]
  }

  /** The sentences as they are spoken: stripped, and none blank. */
  function Said(sentences: seq<string>): seq<string> {
    if sentences == [] then []
    else
      var last := Strip(sentences[|sentences| - 1]);
      Said(sentences[..|sentences| - 1]) + if last == "" then [] else [last]
  }

  lemma PackOneMore(pieces: seq<string>, p: string, limit: int)
    ensures var groups := Pack(pieces, limit);
            var n := |groups|;
            Pack(pieces + [p], limit) == if n > 0 && |Join(groups[n - 1], " ")| + 1 + |p| <= limit
                                         then groups[..n - 1] + [groups[n - 1] + [p]] else groups + [[p]]
  {
    assert (pieces + [p])[..|pieces|] == pieces;
  }

  /** Where the word loop is: the closed chunks and the open one are the groups so far. */
  predicate WordsPacked(chunks: seq<string>, current: string, groups: seq<seq<string>>) {
    && chunks + Open(current) == Joins(groups)
    && (groups == [] <==> current == "")
    && (groups != [] ==> groups[|groups| - 1] != [] && current == Join(groups[|groups| - 1], " "))
  }

  lemma JoinWithMore(g: seq<string>, p: string)
    requires g != []
    ensures Join(g + [p], " ") == Join(g, " ") + " " + p
  {
    JoinAppend(g, [p], " ");
  }

  lemma JoinsSnoc(front: seq<seq<string>>, g: seq<string>)
    ensures Joins(front + [g]) == Joins(front) + [Join(g, " ")]
  {
    hide Join;
  }

  lemma PackWord(chunks: seq<string>, current: string, words: seq<string>, word: string, limit: int)
    requires word != "" && WordsPacked(chunks, current, Pack(words, limit))
    ensures current != "" && |current| + 1 + |word| > limit ==> WordsPacked(chunks + [current], word, Pack(words + [word], limit))
    ensures current == "" ==> WordsPacked(chunks, word, Pack(words + [word], limit))
    ensures current != "" && |current| + 1 + |word| <= limit ==>
              WordsPacked(chunks, current + " " + word, Pack(words + [word], limit))
  {
    hide Join, Pack, Joins;
    var groups := Pack(words, limit);
    PackOneMore(words, word, limit);
    JoinOfOne(word, " ");
    JoinsSnoc(groups, [word]);
    if groups == [] {
      assert Joins([]) == [];
    } else {
      var front, g := groups[..|groups| - 1], groups[|groups| - 1];
      assert groups == front + [g];
      JoinsSnoc(front, g);
      JoinsSnoc(front, g + [word]);
      JoinWithMore(g, word);
      assert (chunks + [current])[..|chunks|] == chunks;
      assert chunks == Joins(front);
    }
  }

  /** A piece of speech: it opens and ends with a word. */
  predicate Trim(s: string) {
    s != "" && !IsSpace(s[0]) && !IsSpace(s[|s| - 1])
  }

  /** A chunk is within the limit, or is one word that no cut could make shorter. */
  predicate Fits(chunk: string, limit: int) {
    Trim(chunk) && (|chunk| <= limit || |Words(chunk)| == 1)
  }

  predicate AllFit(chunks: seq<string>, limit: int) {
    forall i | 0 <= i < |chunks| :: Fits(chunks[i], limit)
  }

  lemma StripOfTrim(s: string)
    requires Trim(s)
    ensures Strip(s) == s && Strip(" " + s) == s
  {
    assert (" " + s)[1..] == s;
  }

  lemma TrimJoin(a: string, b: string)
    requires Trim(a) && Trim(b)
    ensures Trim(a + " " + b) && a + " " + b == a + (" " + b)
  {
    var s := a + " " + b;
    assert s[0] == a[0] && s[|s| - 1] == b[|b| - 1];
  }

  lemma WordsOfPair(a: string, b: string)
    ensures Words(a + (" " + b)) == Words(a) + Words(b)
  {
    hide Words, IsSpace;
    assert IsSpace(' ') by {
      SpaceIsSpace();
    }
    WordsConcat(a, " " + b);
    WordsBehindSpace(" ", b);
  }

  lemma SpaceIsSpace()
    ensures IsSpace(' ')
  {
  }

  /** `f"{current} {piece}".strip()` for trimmed pieces. */
  lemma JoinPieces(current: string, piece: string)
    requires (current == "" || Trim(current)) && Trim(piece)
    ensures Strip(current + " " + piece) == if current == "" then piece else current + " " + piece
    ensures Trim(Strip(current + " " + piece))
    ensures Words(Strip(current + " " + piece)) == Words(current) + Words(piece)
  {
    hide Words, Trim, Strip, IsSpace;
    WordsOfNothing();
    if current == "" {
      assert current + " " + piece == " " + piece;
      StripOfTrim(piece);
    } else {
      TrimJoin(current, piece);
      StripOfTrim(current + " " + piece);
      WordsOfPair(current, piece);
    }
  }

  lemma FlattenSnoc(chunks: seq<string>, chunk: string)
    ensures FlattenWords(chunks + [chunk]) == FlattenWords(chunks) + Words(chunk)
  {
    FlattenWordsAppend(chunks, [chunk]);
    assert [chunk][1..] == [];
  }

  lemma WordIsTrim(w: string)
    requires IsWord(w)
    ensures Trim(w) && Words(w) == [w]
  {
    WordsOfWord(w);
  }

  /** What a splitting loop keeps: the chunks fit, the open one fits, and together they say what was read. */
  predicate Spoken(chunks: seq<string>, current: string, limit: int, words: seq<string>) {
    && AllFit(chunks, limit)
    && (current == "" || Fits(current, limit))
    && FlattenWords(chunks) + Words(current) == words
  }

  lemma FitsSnoc(chunks: seq<string>, chunk: string, limit: int)
    requires AllFit(chunks, limit) && Fits(chunk, limit)
    ensures AllFit(chunks + [chunk], limit)
  {
    hide Fits;
  }

  /** Closing the open chunk and starting with the next piece. */
  lemma StartNew(chunks: seq<string>, current: string, piece: string, limit: int, words: seq<string>)
    requires Spoken(chunks, current, limit, words) && current != "" && Fits(piece, limit)
    ensures Spoken(chunks + [current], piece, limit, words + Words(piece))
  {
    hide Fits, AllFit, FlattenWords, Words;
    FitsSnoc(chunks, current, limit);
    FlattenSnoc(chunks, current);
  }

  /** Adding the next piece to the open chunk. */
  lemma Extend(chunks: seq<string>, current: string, piece: string, limit: int, words: seq<string>)
    requires Spoken(chunks, current, limit, words) && Fits(piece, limit)
    requires current == "" || |current| + 1 + |piece| <= limit
    ensures Spoken(chunks, Strip(current + " " + piece), limit, words + Words(piece))
  {
    hide AllFit, FlattenWords, Words, Trim, Strip;
    JoinPieces(current, piece);
    assert FlattenWords(chunks) + (Words(current) + Words(piece)) == FlattenWords(chunks) + Words(current) + Words(piece);
  }

  lemma CloseLast(chunks: seq<string>, current: string, limit: int, words: seq<string>)
    requires Spoken(chunks, current, limit, words)
    ensures Spoken(chunks + Open(current), "", limit, words)
  {
    hide Fits, AllFit, FlattenWords, Words;
    WordsOfNothing();
    if current != "" {
      FitsSnoc(chunks, current, limit);
      FlattenSnoc(chunks, current);
    } else {
      assert chunks + [] == chunks;
    }
  }

  lemma NothingSpoken(limit: int)
    ensures Spoken([], "", limit, [])
  {
  }

  lemma SpokenAll(chunks: seq<string>, limit: int, words: seq<string>)
    requires Spoken(chunks, "", limit, words)
    ensures FlattenWords(chunks) == words && AllFit(chunks, limit)
  {
  }

  lemma WordFits(w: string, limit: int)
    requires IsWord(w)
    ensures Fits(w, limit) && Words(w) == [w]
  {
    WordIsTrim(w);
  }

  /** Breaks one over-long sentence at white space. */
  method SplitLongSentence(sentence: string, limit: int) returns (chunks: seq<string>)
    ensures FlattenWords(chunks) == Words(sentence)
    ensures AllFit(chunks, limit)
    ensures chunks == Joins(Pack(Words(sentence), limit))
  {
    hide Spoken, Words, FlattenWords, Fits, AllFit, Strip, IsWord, WordsPacked, Pack, Joins;
    var words := Words(sentence);
    WordsAreWords(sentence);
    chunks := [];
    var current := "";
    NothingSpoken(limit);
    NothingPacked(limit);
    for i := 0 to |words|
      invariant Spoken(chunks, current, limit, words[..i])
      invariant WordsPacked(chunks, current, Pack(words[..i], limit))
    {
      var word := words[i];
      WordFits(word, limit);
      WordNotEmpty(word);
      PackWord(chunks, current, words[..i], word, limit);
      OpenIsTrim(chunks, current, limit, words[..i]);
      JoinPieces(current, word);
      assert words[..i + 1] == words[..i] + [word];
      if current != "" && |current| + 1 + |word| > limit {
        StartNew(chunks, current, word, limit, words[..i]);
        chunks := chunks + [current];
        current := word;
      } else {
        Extend(chunks, current, word, limit, words[..i]);
        current := Strip(current + " " + word);
      }
    }
    assert words[..|words|] == words;
    CloseLast(chunks, current, limit, words);
    AllPacked(chunks, current, Pack(words, limit));
    assert chunks + [] == chunks;
    if current != "" {
      chunks := chunks + [current];
    }
    SpokenAll(chunks, limit, words);
  }

  lemma NothingPacked(limit: int)
    ensures WordsPacked([], "", Pack([], limit)) && SentencesPacked([], "", Pack(Said([]), limit), limit)
  {
  }

  lemma WordNotEmpty(word: string)
    requires IsWord(word)
    ensures word != "" && Trim(word)
  {
  }

  lemma OpenIsTrim(chunks: seq<string>, current: string, limit: int, words: seq<string>)
    requires Spoken(chunks, current, limit, words)
    ensures current == "" || Trim(current)
  {
  }

  lemma AllPacked(chunks: seq<string>, current: string, groups: seq<seq<string>>)
    requires WordsPacked(chunks, current, groups)
    ensures chunks + Open(current) == Joins(groups)
  {
  }

  lemma TrimmedSentence(sentence: string)
    ensures Strip(sentence) != "" ==> Trim(Strip(sentence))
    ensures Words(Strip(sentence)) == Words(sentence)
  {
    WordsOfStrip(sentence);
  }

  lemma FlattenPrefix(parts: seq<string>, i: nat)
    requires i < |parts|
    ensures FlattenWords(parts[..i + 1]) == FlattenWords(parts[..i]) + Words(parts[i])
  {
    assert parts[..i + 1] == parts[..i] + [parts[i]];
    FlattenSnoc(parts[..i], parts[i]);
  }

  /** A sentence that was broken up goes behind what was said before it. */
  lemma SpeakParts(chunks: seq<string>, parts: seq<string>, limit: int, words: seq<string>)
    requires Spoken(chunks, "", limit, words) && AllFit(parts, limit)
    ensures Spoken(chunks + parts, "", limit, words + FlattenWords(parts))
  {
    hide Fits, FlattenWords, Words;
    WordsOfNothing();
    FlattenWordsAppend(chunks, parts);
  }

  lemma ShortFits(sentence: string, limit: int)
    requires Trim(sentence) && |sentence| <= limit
    ensures Fits(sentence, limit)
  {
  }

  /** Where the sentence loop is: a long sentence leaves no open chunk. */
  predicate SentencesPacked(chunks: seq<string>, current: string, groups: seq<seq<string>>, limit: int) {
    && chunks + Open(current) == SpeechOf(groups, limit)
    && (current == "" ==> groups == [] || IsLong(groups[|groups| - 1], limit))
    && (current != "" ==> groups != [] && groups[|groups| - 1] != [] && !IsLong(groups[|groups| - 1], limit) && current == Join(groups[|groups| - 1], " "))
  }

  lemma SpeechSnoc(front: seq<seq<string>>, g: seq<string>, limit: int)
    ensures SpeechOf(front + [g], limit)
            == SpeechOf(front, limit) + if IsLong(g, limit) then Joins(Pack(Words(g[0]), limit)) else [Join(g, " ")]
  {
    assert (front + [g])[..|front|] == front;
  }

  /** A sentence over the limit becomes a group of its own. */
  lemma PackLong(chunks: seq<string>, current: string, pieces: seq<string>, s: string, limit: int)
    requires |s| > limit && SentencesPacked(chunks, current, Pack(pieces, limit), limit)
    ensures SentencesPacked(chunks + Open(current) + Joins(Pack(Words(s), limit)), "", Pack(pieces + [s], limit), limit)
  {
    hide Join, Pack, Joins, SpeechOf;
    PackOneMore(pieces, s, limit);
    SpeechSnoc(Pack(pieces, limit), [s], limit);
    var all := chunks + Open(current) + Joins(Pack(Words(s), limit));
    assert all + Open("") == all;
  }

  lemma PackShort(chunks: seq<string>, current: string, pieces: seq<string>, s: string, limit: int)
    requires s != "" && |s| <= limit && SentencesPacked(chunks, current, Pack(pieces, limit), limit)
    ensures current != "" && |current| + 1 + |s| > limit ==> SentencesPacked(chunks + [current], s, Pack(pieces + [s], limit), limit)
    ensures current == "" ==> SentencesPacked(chunks, s, Pack(pieces + [s], limit), limit)
    ensures current != "" && |current| + 1 + |s| <= limit ==>
              SentencesPacked(chunks, current + " " + s, Pack(pieces + [s], limit), limit)
  {
    hide Join, Pack, Joins, SpeechOf;
    var groups := Pack(pieces, limit);
    PackOneMore(pieces, s, limit);
    JoinOfOne(s, " ");
    SpeechSnoc(groups, [s], limit);
    if groups == [] {
      assert SpeechOf([], limit) == [] by { NoSpeech(limit); }
    } else {
      var front, g := groups[..|groups| - 1], groups[|groups| - 1];
      assert groups == front + [g];
      SpeechSnoc(front, g, limit);
      SpeechSnoc(front, g + [s], limit);
      if current == "" {
        JoinOfOne(g[0], " ");
        assert g == [g[0]] && chunks + Open(current) == chunks;
      } else {
        JoinWithMore(g, s);
        assert chunks == SpeechOf(front, limit) by { SameInit(chunks, SpeechOf(front, limit), current); }
      }
    }
  }

  lemma NoSpeech(limit: int)
    ensures SpeechOf([], limit) == []
  {
  }

  lemma LongLeavesNone(chunks: seq<string>, current: string, parts: seq<string>)
    ensures chunks + Open(current) + parts == (if current == "" then chunks else chunks + [current]) + parts
  {
  }

  /** One round of the sentence loop. */
  method SpeakSentence(sentence: string, limit: int, before: seq<string>, open: string, ghost words: seq<string>, ghost pieces: seq<string>)
    returns (chunks: seq<string>, current: string)
    requires Trim(sentence) && Spoken(before, open, limit, words)
    requires SentencesPacked(before, open, Pack(pieces, limit), limit)
    ensures Spoken(chunks, current, limit, words + Words(sentence))
    ensures SentencesPacked(chunks, current, Pack(pieces + [sentence], limit), limit)
  {
    TrimNotEmpty(sentence);
    hide Spoken, Words, FlattenWords, Fits, AllFit, Strip, Trim, SentencesPacked, Pack, Joins;
    chunks, current := before, open;
    if |sentence| > limit {
      CloseLast(chunks, current, limit, words);
      PackLong(chunks, current, pieces, sentence, limit);
      LongLeavesNone(chunks, current, Joins(Pack(Words(sentence), limit)));
      if current != "" {
        chunks := chunks + [current];
        current := "";
      }
      var parts := SplitLongSentence(sentence, limit);
      SpeakParts(chunks, parts, limit, words);
      chunks := chunks + parts;
      return;
    }
    ShortFits(sentence, limit);
    PackShort(chunks, current, pieces, sentence, limit);
    OpenIsTrim(chunks, current, limit, words);
    JoinPieces(current, sentence);
    if current != "" && |current| + 1 + |sentence| > limit {
      StartNew(chunks, current, sentence, limit, words);
      chunks := chunks + [current];
      current := sentence;
    } else {
      Extend(chunks, current, sentence, limit, words);
      current := Strip(current + " " + sentence);
    }
  }

  /** Every word is spoken once, in order; a chunk is within the limit unless it is a single word; only
      a text of white space makes no chunk. */
  method SplitForSpeech(text: string, limit: int) returns (chunks: seq<string>)
    ensures FlattenWords(chunks) == Words(text)
    ensures AllFit(chunks, limit)
    ensures chunks == [] <==> Strip(text) == ""
    ensures chunks == SpeechOf(Pack(Said(Sentences(Strip(text))), limit), limit)
  {
    hide Spoken, Words, FlattenWords, Fits, AllFit, Strip, Trim, Sentences, SentencesPacked, Pack, Said, SpeechOf;
    var sentences := Sentences(Strip(text));
    SentencesKeepWords(Strip(text));
    WordsOfStrip(text);
    chunks := [];
    var current := "";
    NothingSpoken(limit);
    NothingPacked(limit);
    NoWords();
    for i := 0 to |sentences|
      invariant Spoken(chunks, current, limit, FlattenWords(sentences[..i]))
      invariant SentencesPacked(chunks, current, Pack(Said(sentences[..i]), limit), limit)
    {
      SaidOneMore(sentences, i);
      FlattenPrefix(sentences, i);
      TrimmedSentence(sentences[i]);
      var sentence := Strip(sentences[i]);
      if sentence != "" {
        chunks, current := SpeakSentence(sentence, limit, chunks, current, FlattenWords(sentences[..i]), Said(sentences[..i]));
      } else {
        WordsOfNothing();
        assert FlattenWords(sentences[..i]) + [] == FlattenWords(sentences[..i]);
      }
    }
    assert sentences[..|sentences|] == sentences;
    CloseLast(chunks, current, limit, FlattenWords(sentences));
    AllSpoken(chunks, current, Pack(Said(sentences), limit), limit);
    assert chunks + [] == chunks;
    if current != "" {
      chunks := chunks + [current];
    }
    SpokenAll(chunks, limit, Words(text));
    NoChunksIffBlank(text, chunks, limit);
  }

  lemma TrimNotEmpty(s: string)
    requires Trim(s)
    ensures s != ""
  {
  }

  lemma SaidOneMore(sentences: seq<string>, i: nat)
    requires i < |sentences|
    ensures Said(sentences[..i + 1]) == if Strip(sentences[i]) == "" then Said(sentences[..i]) else Said(sentences[..i]) + [Strip(sentences[i])]
  {
    assert sentences[..i + 1][..i] == sentences[..i];
    assert Said(sentences[..i]) + [] == Said(sentences[..i]);
  }

  lemma AllSpoken(chunks: seq<string>, current: string, groups: seq<seq<string>>, limit: int)
    requires SentencesPacked(chunks, current, groups, limit)
    ensures chunks + Open(current) == SpeechOf(groups, limit)
  {
  }

  lemma NoWords()
    ensures FlattenWords([]) == []
  {
  }

  /** The source's fallback for an empty list is never taken: the list is empty only for a blank text. */
  lemma NoChunksIffBlank(text: string, chunks: seq<string>, limit: int)
    requires FlattenWords(chunks) == Words(text) && AllFit(chunks, limit)
    ensures chunks == [] <==> Strip(text) == ""
  {
    if chunks != [] {
      assert Fits(chunks[0], limit);
      assert Words(chunks[0]) != [];
    }
    WordsOfStrip(text);
    if Strip(text) != "" {
      assert Words(Strip(text)) != [];
    }
  }
}
