/** What a batch of dropped texts says (src/wahabot/core/learned.py, RecapMerger.schedule). */
module RecapBatches {
  // Word by word, without the function that builds the batch.

  import opened Text
  import opened Chats
  import opened OrderedDict
  import M = RecapMerger

  // ----- the end of a list of words -----

  predicate IsEnd(a: string, b: string) {
    |a| <= |b| && b[|b| - |a|..] == a
  }

  /** The last words of a list; of the first of them only the end may be left. */
  predicate NewestWords(ws: seq<string>, all: seq<string>) {
    && |ws| <= |all|
    && (forall i | 1 <= i < |ws| :: ws[i] == all[|all| - |ws| + i])
    && (ws != [] ==> IsEnd(ws[0], all[|all| - |ws|]))
  }

  lemma NewestRefl(ws: seq<string>)
    ensures NewestWords(ws, ws)
  {
  }

  lemma NewestTrans(a: seq<string>, b: seq<string>, c: seq<string>)
    requires NewestWords(a, b) && NewestWords(b, c)
    ensures NewestWords(a, c)
  {
    if a != [] {
      var x, y, z := a[0], b[|b| - |a|], c[|c| - |a|];
      assert |a| < |b| ==> y == z;
      assert IsEnd(x, y) && IsEnd(y, z);
      assert z[|z| - |y|..][|y| - |x|..] == z[|z| - |x|..];
    }
  }

  lemma NewestAppend(ws: seq<string>, all: seq<string>, more: seq<string>)
    requires NewestWords(ws, all)
    ensures NewestWords(ws + more, all + more)
  {
    var a, b := ws + more, all + more;
    forall i | 1 <= i < |a|
      ensures a[i] == b[|b| - |a| + i]
    {
      if i >= |ws| {
        assert a[i] == more[i - |ws|] == b[|all| + (i - |ws|)];
      }
    }
  }

  lemma NewestLonger(ws: seq<string>, w: string, all: seq<string>)
    requires NewestWords(ws, all)
    ensures NewestWords(ws, [w] + all)
  {
  }

  lemma NewestShorterFirst(w: string, cut: string, rest: seq<string>)
    requires IsEnd(cut, w)
    ensures NewestWords([cut] + rest, [w] + rest)
  {
  }

  /** Cutting a text anywhere leaves its last words, the first perhaps without its beginning. */
  lemma {:induction false} CutWords(s: string, k: nat)
    requires k <= |s|
    ensures NewestWords(Words(s[k..]), Words(s))
    decreases |s|
  {
    hide Words, NewestWords, WordRun, IsSpace;
    if k == 0 {
      assert s[0..] == s;
      NewestRefl(Words(s));
    } else if IsSpace(s[0]) {
      WordsSkip(s);
      CutWords(s[1..], k - 1);
      assert s[1..][k - 1..] == s[k..];
    } else {
      var n := WordRun(s);
      WordsTake(s, n);
      if k >= n {
        CutWords(s[n..], k - n);
        assert s[n..][k - n..] == s[k..];
        NewestLonger(Words(s[k..]), s[..n], Words(s[n..]));
      } else {
        CutInWord(s, k, n);
      }
    }
  }

  lemma CutInWord(s: string, k: nat, n: nat)
    requires 0 < k < n == WordRun(s) && s != "" && !IsSpace(s[0])
    ensures NewestWords(Words(s[k..]), Words(s))
  {
    hide Words, NewestWords, WordRun, IsSpace;
    var t := s[k..];
    RestOfWord(s, k, n);
    assert t[0] == s[k];
    WordsTake(s, n);
    WordsTake(t, n - k);
    assert t[n - k..] == s[n..];
    assert s[..n][k..] == t[..n - k];
    NewestShorterFirst(s[..n], t[..n - k], Words(s[n..]));
  }

  lemma {:induction false} RestOfWord(s: string, k: nat, n: nat)
    requires k < n == WordRun(s)
    ensures n <= |s| && WordRun(s[k..]) == n - k && !IsSpace(s[k])
    decreases k
  {
    if k == 0 {
      assert s[0..] == s;
    } else {
      RestOfWord(s[1..], k - 1, n - 1);
      assert s[1..][k - 1..] == s[k..];
    }
  }

  // ----- one text more -----

  lemma WordsOfBoth(previous: string, dropped: string)
    ensures Words(Strip(previous + "\n" + dropped)) == Words(previous) + Words(dropped)
  {
    hide Words, Strip, IsSpace;
    LineFeedIsSpace();
    assert previous + "\n" + dropped == previous + ("\n" + dropped);
    WordsOfStrip(previous + "\n" + dropped);
    WordsConcat(previous, "\n" + dropped);
    WordsBehindSpace("\n", dropped);
  }

  lemma LineFeedIsSpace()
    ensures IsSpace('\n')
  {
  }

  /** Scheduling a text behind what is pending keeps every word of both, as long as they fit the limit
      together; otherwise the batch is exactly their last 16000 characters. */
  lemma BatchKeepsBoth(previous: string, dropped: string)
    ensures var whole, batch := Strip(previous + "\n" + dropped), M.Batched(previous, dropped);
            && (|whole| <= 16000 ==> Words(batch) == Words(previous) + Words(dropped))
            && (|whole| > 16000 ==> |batch| == 16000 && batch == whole[|whole| - 16000..])
  {
    hide Words, Strip;
    WordsOfBoth(previous, dropped);
  }

  // ----- any number of texts -----

  lemma FlattenSnoc(texts: seq<string>, t: string)
    ensures FlattenWords(texts + [t]) == FlattenWords(texts) + Words(t)
  {
    hide Words;
    FlattenWordsAppend(texts, [t]);
    assert [t][1..] == [];
    assert FlattenWords([t]) == Words(t) + FlattenWords([]);
  }

  /** A batch says the newest words of its texts, and of the first of them perhaps only the end. */
  lemma {:induction false} BatchSaysNewest(texts: seq<string>)
    ensures NewestWords(Words(M.BatchText(texts)), FlattenWords(texts))
  {
    hide Words, NewestWords, Strip, FlattenWords;
    if texts == [] {
      NothingSaid();
    } else {
      var init, last := texts[..|texts| - 1], texts[|texts| - 1];
      BatchSaysNewest(init);
      var before, whole := M.BatchText(init), Strip(M.BatchText(init) + "\n" + last);
      WordsOfBoth(before, last);
      NewestAppend(Words(before), FlattenWords(init), Words(last));
      assert texts == init + [last];
      FlattenSnoc(init, last);
      if |whole| > M.BATCH_CHARS {
        CutWords(whole, |whole| - M.BATCH_CHARS);
        NewestTrans(Words(M.BatchText(texts)), Words(whole), FlattenWords(texts));
      }
    }
  }

  lemma NothingSaid()
    ensures NewestWords(Words(M.BatchText([])), FlattenWords([]))
  {
  }

  lemma StripBehindFeed(s: string)
    ensures Strip("\n" + s) == Strip(s)
  {
    assert ("\n" + s)[1..] == s;
  }

  lemma JoinSnoc(init: seq<string>, last: string)
    requires init != []
    ensures |Join(init + [last], "\n")| == |Join(init, "\n")| + 1 + |last|
  {
    JoinAppend(init, [last], "\n");
  }

  /** Texts that fit the limit together are never cut: the batch says every word of each, in order. */
  lemma {:induction false} FittingBatchSaysAll(texts: seq<string>)
    requires |Join(texts, "\n")| <= 16000
    ensures Words(M.BatchText(texts)) == FlattenWords(texts) && |M.BatchText(texts)| <= |Join(texts, "\n")|
  {
    hide Words, Strip, FlattenWords, Join;
    if texts == [] {
      NothingFits();
    } else {
      var init, last := texts[..|texts| - 1], texts[|texts| - 1];
      assert texts == init + [last];
      if init == [] {
        NothingFits();
        JoinOfOne(last, "\n");
        assert texts == [last];
        assert "" + "\n" + last == "\n" + last;
        StripBehindFeed(last);
      } else {
        JoinSnoc(init, last);
        FittingBatchSaysAll(init);
      }
      WordsOfBoth(M.BatchText(init), last);
      FlattenSnoc(init, last);
    }
  }

  lemma NothingFits()
    ensures M.BatchText([]) == "" && Words("") == [] == FlattenWords([]) && Join([], "\n") == ""
  {
  }

  // ----- every run -----

  /** What stands for these texts: their newest words, and all of them when they fit the limit. */
  predicate Says(batch: string, texts: seq<string>) {
    && NewestWords(Words(batch), FlattenWords(texts))
    && (|Join(texts, "\n")| <= 16000 ==> Words(batch) == FlattenWords(texts))
  }

  lemma BatchSays(texts: seq<string>)
    ensures Says(M.BatchText(texts), texts)
  {
    BatchSaysNewest(texts);
    if |Join(texts, "\n")| <= 16000 {
      FittingBatchSaysAll(texts);
    }
  }

  /** In every reachable state, what is pending for a chat says the texts scheduled since its last batch
      was taken, and what a job merges says the texts of its batch. */
  lemma EveryWordIsMerged(recaps: map<Chat, string>, steps: seq<M.Step>, c: M.Config, key: Chat, job: nat)
    requires M.Possible(M.Start(recaps), steps, c)
    ensures var w := M.After(M.Start(recaps), steps, c);
            && (key in w.state.pending.vals ==> Says(w.state.pending.vals[key], M.TextsOf(w.open, key)))
            && (job < |w.taken| && job in w.state.tasks && job in w.state.texts ==> Says(w.state.texts[job], w.taken[job].texts))
  {
    hide Says, M.BatchText;
    var w := M.After(M.Start(recaps), steps, c);
    M.EveryTextOnce(recaps, steps, c, key, job);
    BatchSays(M.TextsOf(w.open, key));
    if job < |w.taken| {
      BatchSays(w.taken[job].texts);
    }
  }
}
