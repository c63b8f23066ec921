/** What a write that is cut short costs a serial registry (src/wahabot/ai/serials.py). */
module SerialCrash {
  // The file is bytes; a crash leaves any first part of the bytes of the entry being written.

  import opened Optional
  import opened Text
  import opened Utf8
  import opened JsonLine
  import opened SerialFile
  import opened Serials
  import opened StrayLines

  /** What a fresh process has after its first load; None where that raises, because the bytes cannot be
      decoded or because a line is foreign. */
  ghost function Reload(bytes: seq<Byte>): Option<Registry> {
    var text := Decode(bytes);
    if text.None? || Raises(Fresh(text.value)) then None else Some(Load(Fresh(text.value)))
  }

  function Fresh(text: string): Registry {
    Registry(BLANK_VIEW, false, Present(text))
  }

  function LineText(e: Entry): string {
    EntryText(e) + "\n"
  }

  /** The file's text when the write of an entry stops after i characters. */
  function CutFile(f: File, e: Entry, i: nat): File
    requires i <= |LineText(e)|
  {
    Present(Content(f) + LineText(e)[..i])
  }

  /** The bytes on disk when the write stops after k bytes. */
  function CutBytesOf(f: File, e: Entry, k: nat): seq<Byte>
    requires k <= |Encode(LineText(e))|
  {
    Encode(Content(f)) + Encode(LineText(e))[..k]
  }

  // ----- the text behind a cut -----

  lemma CleanIsTerminated(f: File)
    requires CleanEnd(f)
    ensures var t := Content(f); TailStart(t) == |t| && (t == "" || IsBreak(t[|t| - 1])) && Terminated(f) == AllLines(f)
  {
    hide DecodeLine, Lines;
    var t := Content(f);
    assert t[TailStart(t)..] == "";
    assert t[..|t|] == t;
  }

  lemma AddedLines(f: File, x: string)
    requires CleanEnd(f) && x != "" && x[0] != '\n'
    ensures AllLines(Present(Content(f) + x)) == AllLines(f) + Decoded(Lines(x))
  {
    hide DecodeLine, Lines;
    CleanIsTerminated(f);
    assert EndsLine(Content(f), x);
    LinesConcat(Content(f), x);
    DecodedConcat(Lines(Content(f)), Lines(x));
  }

  /** A cut entry is no entry, and neither is any line of one with a stray line end. */
  lemma CutTextIsNoEntry(e: Entry, i: nat)
    requires 0 < i <= |EntryText(e)| && (i < |EntryText(e)| || !Storable(e))
    ensures NoneStored(Decoded(Lines(EntryText(e)[..i])))
  {
    hide EntryText, Lines, DecodeLine, Strip, IsBreak, Storable;
    var t := EntryText(e);
    var s := t[..i];
    var k := BreakRun(s);
    EntryIsOneLineIff(e);
    EntryEnds(e);
    if k == i {
      LinesOfOne(s);
      assert i == |t| ==> s == t;
      FirstCutIsNoEntry(e, i);
    } else {
      LinesStep(s, k);
      assert s[..k] == t[..k];
      HeadHasNoBreak(t, i);
      FirstCutIsNoEntry(e, k);
      var skip := BreakWidth(s, k);
      assert s[k + skip..] == t[k + skip..i] + "";
      PiecesAreNoEntries(e, k + skip, i, "");
      DecodedConcat([s[..k]], Lines(s[k + skip..]));
    }
  }

  lemma HeadHasNoBreak(t: string, i: nat)
    requires 0 < i <= |t| && t[0] == '{'
    ensures BreakRun(t[..i]) > 0
  {
  }

  lemma FirstCutIsNoEntry(e: Entry, k: nat)
    requires 0 < k < |EntryText(e)|
    ensures !DecodeLine(EntryText(e)[..k]).Stored?
  {
    hide EntryText, Strip;
    var p := EntryText(e)[..k];
    forall x: Entry
      ensures Strip(p) != EntryText(x)
    {
      FirstPieceIsNoEntry("", e, k, x);
      assert "" + p == p;
    }
    NotStored(p);
  }

  lemma WholeTextIsEntry(e: Entry)
    requires Storable(e)
    ensures Decoded(Lines(EntryText(e))) == [Stored(e)]
  {
    hide EntryText, Lines, DecodeLine, Strip, Storable;
    EntryIsOneLineIff(e);
    EntryEnds(e);
    LinesOfOne(EntryText(e));
    LetterIsNoSpace();
    HeadBehindBlank("", EntryText(e));
    assert "" + EntryText(e) == EntryText(e);
    DecodesIff(EntryText(e), e);
  }

  /** What a restart reads after a cut between two characters: the entry being written is there exactly
      when it has no stray line end and at most the closing line feed is missing. */
  lemma CutReplays(f: File, e: Entry, i: nat)
    requires CleanEnd(f) && i <= |LineText(e)|
    ensures Replay(AllLines(CutFile(f, e, i))) ==
            if Storable(e) && i >= |EntryText(e)| then Fold(Replay(AllLines(f)), e) else Replay(AllLines(f))
  {
    hide EntryText, AllLines, DecodeLine, Storable, Fold, CleanEnd, BlankEnd;
    var t := EntryText(e);
    EntryEnds(e);
    if i == 0 {
      SameContent(f, e);
    } else if i == |t| + 1 {
      assert LineText(e)[..i] == LineText(e);
      CleanIsBlank(f);
      AppendReplays(f, e);
    } else {
      assert LineText(e)[..i] == t[..i];
      AddedLines(f, t[..i]);
      if Storable(e) && i == |t| {
        assert t[..i] == t;
        WholeTextIsEntry(e);
        ReplaySnoc(AllLines(f), Stored(e));
      } else {
        CutTextIsNoEntry(e, i);
        ReplayIgnores(AllLines(f), Decoded(Lines(t[..i])));
      }
    }
  }

  lemma SameContent(f: File, e: Entry)
    ensures AllLines(CutFile(f, e, 0)) == AllLines(f)
  {
    hide Lines, DecodeLine;
    assert Content(f) + LineText(e)[..0] == Content(f);
  }

  lemma CleanIsBlank(f: File)
    requires CleanEnd(f)
    ensures BlankEnd(f)
  {
  }

  lemma {:induction false} TailStartBehind(t: string, p: string)
    requires (t == "" || IsBreak(t[|t| - 1])) && BreakFree(p)
    ensures TailStart(t + p) == |t|
  {
    if p == "" {
      assert t + p == t;
    } else {
      var s := t + p;
      assert s[|s| - 1] == p[|p| - 1];
      assert s[..|s| - 1] == t + p[..|p| - 1];
      TailStartBehind(t, p[..|p| - 1]);
    }
  }

  lemma NotBlankHead(p: string)
    requires p != "" && p[0] == '{'
    ensures !IsBlank(p)
  {
    LetterIsNoSpace();
  }

  /** What a cut leaves of an entry is a tail that is not blank. */
  lemma CutLeavesTail(f: File, e: Entry, i: nat)
    requires CleanEnd(f) && Storable(e) && 0 < i <= |EntryText(e)|
    ensures !BlankEnd(CutFile(f, e, i)) && Terminated(CutFile(f, e, i)) == AllLines(f)
  {
    hide EntryText, AllLines, Terminated, Storable, TailStart, IsBlank, BreakFree, IsBreak, CleanEnd;
    var t, g := EntryText(e), CutFile(f, e, i);
    assert LineText(e)[..i] == t[..i];
    EntryIsOneLineIff(e);
    PrefixBreakFree(t, i);
    CleanTail(f);
    TailStartBehind(Content(f), t[..i]);
    assert Tail(g) == t[..i];
    EntryEnds(e);
    NotBlankHead(t[..i]);
    assert Content(g)[..|Content(f)|] == Content(f);
    TerminatedIs(g, f);
  }

  lemma CleanTail(f: File)
    requires CleanEnd(f)
    ensures var t := Content(f); t == "" || IsBreak(t[|t| - 1])
  {
    hide TailStart, IsBreak;
  }

  lemma WholeCutEndsClean(f: File, e: Entry)
    ensures CleanEnd(CutFile(f, e, |LineText(e)|))
  {
    hide EntryText, TailStart;
    assert LineText(e)[..|LineText(e)|] == LineText(e);
    EndsWithBreak(Content(f), EntryText(e));
  }

  /** Behind a cut that left part of an entry the next write is lost as well, and so is an entry that
      lacks nothing but its line feed. */
  lemma NextWriteReplays(f: File, e: Entry, i: nat, next: Entry)
    requires CleanEnd(f) && Storable(e) && Storable(next) && i <= |LineText(e)|
    ensures Replay(AllLines(Appended(CutFile(f, e, i), next))) ==
            if i == 0 then Fold(Replay(AllLines(f)), next)
            else if i == |LineText(e)| then Fold(Fold(Replay(AllLines(f)), e), next)
            else Replay(AllLines(f))
  {
    hide EntryText, AllLines, Terminated, Storable, Fold, Replay, Tail, Appended, BlankEnd, CleanEnd;
    EntryEnds(e);
    CutReplays(f, e, i);
    AppendReplays(CutFile(f, e, i), next);
    if i == 0 {
      assert Content(CutFile(f, e, i)) == Content(f);
      CleanIsBlank(f);
      SameContentBlank(f, CutFile(f, e, i));
    } else if i == |LineText(e)| {
      WholeCutEndsClean(f, e);
      CleanIsBlank(CutFile(f, e, i));
    } else {
      CutLeavesTail(f, e, i);
    }
  }

  lemma SameContentBlank(f: File, g: File)
    requires Content(f) == Content(g)
    ensures BlankEnd(f) == BlankEnd(g)
  {
  }

  lemma TerminatedIs(g: File, f: File)
    requires CleanEnd(f) && TailStart(Content(g)) == |Content(f)| <= |Content(g)| && Content(g)[..|Content(f)|] == Content(f)
    ensures Terminated(g) == AllLines(f)
  {
    hide DecodeLine, Lines;
  }

  lemma PrefixBreakFree(t: string, i: nat)
    requires BreakFree(t) && i <= |t|
    ensures BreakFree(t[..i])
  {
  }

  // ----- every cut -----

  /** The cut falls between two characters. */
  ghost predicate BetweenCharacters(e: Entry, k: nat) {
    exists i: nat :: CutAt(LineText(e), k, i, 0)
  }

  lemma NoCharacterInside(s: string, k: nat, i: nat, m: nat, j: nat)
    requires CutAt(s, k, i, m) && m > 0
    ensures !CutAt(s, k, j, 0)
  {
    hide CharBytes;
    CutIsDecodableIff("", s, k, i, m, []);
    assert Encode("") + Encode(s)[..k] + [] == Encode("") + Encode(s)[..k];
    if CutAt(s, k, j, 0) {
      CutIsDecodableIff("", s, k, j, 0, []);
    }
  }

  /** No line of what was written of the entry is foreign. */
  predicate HarmlessUpTo(e: Entry, i: nat)
    requires i <= |LineText(e)|
  {
    Loadable(Decoded(Lines(LineText(e)[..i])))
  }

  /** A beginning of an entry without stray line ends is harmless, and a whole entry is unless it is
      poisonous. */
  lemma HarmlessIff(e: Entry, i: nat)
    requires i <= |LineText(e)|
    ensures Storable(e) ==> HarmlessUpTo(e, i)
    ensures i == |LineText(e)| ==> (HarmlessUpTo(e, i) <==> !Poisonous(e))
  {
    hide EntryText, Storable, Poisonous, HarmlessUpTo;
    if i == |LineText(e)| {
      WholeHarmlessIff(e);
      StorableMeansHarmless(e);
    } else if Storable(e) {
      StorableCutLoads(e, i);
      CutOfLine(e, i);
    }
  }

  lemma WholeHarmlessIff(e: Entry)
    ensures HarmlessUpTo(e, |LineText(e)|) <==> !Poisonous(e)
  {
    hide EntryText, Poisonous, Loadable, Written, DecodeLine;
    var s := LineText(e);
    WrittenForeignIff(Absent, e);
    WrittenToNothing(e);
    assert s[..|s|] == s;
  }

  lemma WrittenToNothing(e: Entry)
    ensures Written(Absent, e) == Decoded(Lines(LineText(e)))
  {
    hide EntryText, Tail, Decoded, Lines;
    EmptyTail();
    var s := Tail(Absent) + (EntryText(e) + "\n");
    assert s == LineText(e);
  }

  lemma CutOfLine(e: Entry, i: nat)
    requires i <= |EntryText(e)|
    ensures LineText(e)[..i] == EntryText(e)[..i]
    ensures HarmlessUpTo(e, i) <==> Loadable(Decoded(Lines(EntryText(e)[..i])))
  {
    hide EntryText, Decoded, Loadable;
    assert LineText(e)[..i] == EntryText(e)[..i];
  }

  lemma EmptyTail()
    ensures Tail(Absent) == ""
  {
  }

  lemma StorableMeansHarmless(e: Entry)
    ensures Storable(e) ==> !Poisonous(e)
  {
    hide Storable, Poisonous;
    if Storable(e) {
      StorableIsHarmless(e);
    }
  }

  lemma StorableCutLoads(e: Entry, i: nat)
    requires Storable(e) && i <= |EntryText(e)|
    ensures Loadable(Decoded(Lines(EntryText(e)[..i])))
  {
    hide EntryText, Storable, DecodeLine;
    var p := EntryText(e)[..i];
    EntryIsOneLineIff(e);
    PrefixBreakFree(EntryText(e), i);
    if i == 0 {
      LinesOfNothing([]);
    } else {
      LinesOfOne(p);
      EntryHeadIsNotForeign("", e, i);
      assert "" + p == p;
    }
  }

  lemma CutLoadsIff(f: File, e: Entry, i: nat)
    requires CleanEnd(f) && i <= |LineText(e)|
    ensures Loadable(AllLines(CutFile(f, e, i))) <==> Loadable(AllLines(f)) && HarmlessUpTo(e, i)
  {
    hide EntryText, AllLines, DecodeLine, Loadable, Lines, CleanEnd;
    EntryEnds(e);
    if i == 0 {
      SameContent(f, e);
      assert LineText(e)[..0] == "";
      NothingLoads();
    } else {
      AddedLines(f, LineText(e)[..i]);
      LoadableConcat(AllLines(f), Decoded(Lines(LineText(e)[..i])));
    }
  }

  lemma NothingLoads()
    ensures Loadable(Decoded(Lines("")))
  {
    LinesOfNothing([]);
  }

  lemma ReloadOf(text: string, b: seq<Byte>)
    requires Decode(b) == Some(text)
    ensures Reload(b).Some? <==> Loadable(AllLines(Present(text)))
    ensures Reload(b).Some? ==> Reload(b).value.view == Replay(AllLines(Present(text)))
  {
    hide AllLines, ReplayFrom, FirstForeign, Loadable;
    if Loadable(AllLines(Present(text))) {
      AllBeforeForeign(AllLines(Present(text)));
    }
  }

  /** For every cut of a write: a fresh process can load the file exactly when the cut falls between two
      characters, it could load what was there before, and no line of what was written is foreign. */
  lemma CutIsReadableIff(f: File, e: Entry, k: nat)
    requires CleanEnd(f) && k <= |Encode(LineText(e))|
    ensures Reload(CutBytesOf(f, e, k)).Some? <==>
            exists i: nat :: CutAt(LineText(e), k, i, 0) && Loadable(AllLines(f)) && HarmlessUpTo(e, i)
  {
    hide CharBytes, Encode, LineText, AllLines, Reload, Loadable, HarmlessUpTo, CleanEnd;
    var s := LineText(e);
    var i, m := CutPoint(s, k);
    if m == 0 {
      CutIsDecodableIff(Content(f), s, k, i, 0, []);
      ReloadOf(Content(f) + s[..i], CutBytesOf(f, e, k));
      CutLoadsIff(f, e, i);
      forall j: nat | CutAt(s, k, j, 0)
        ensures j == i
      {
        SameCut(s, k, i, j);
      }
    } else {
      forall j: nat
        ensures !CutAt(s, k, j, 0)
      {
        NoCharacterInside(s, k, i, m, j);
      }
      CutIsDecodableIff(Content(f), s, k, i, m, []);
      assert CutBytesOf(f, e, k) + [] == CutBytesOf(f, e, k);
      UndecodableRaises(CutBytesOf(f, e, k));
    }
  }

  lemma UndecodableRaises(b: seq<Byte>)
    requires Decode(b).None?
    ensures Reload(b).None?
  {
  }

  lemma SameCut(s: string, k: nat, i: nat, j: nat)
    requires CutAt(s, k, i, 0) && CutAt(s, k, j, 0)
    ensures i == j
  {
    hide CharBytes;
    CutBytes(s, k, i, 0);
    CutBytes(s, k, j, 0);
    assert Encode(s[..i]) + [] == Encode(s[..i]) && Encode(s[..j]) + [] == Encode(s[..j]);
    EncodeInjective(s[..i], s[..j]);
    assert |s[..i]| == i && |s[..j]| == j;
  }

  /** A half character is never mended: every later load raises, whatever entries are written behind it. */
  lemma HalfCharacterStays(f: File, e: Entry, k: nat, later: string)
    requires k <= |Encode(LineText(e))| && !BetweenCharacters(e, k) && (later == "" || later[0] == '{')
    ensures Reload(CutBytesOf(f, e, k) + Encode(later)).None?
  {
    hide CharBytes, Encode, Reload, LineText;
    var i, m := CutPoint(LineText(e), k);
    assert m > 0;
    LaterIsNoContinuation(later);
    CutIsDecodableIff(Content(f), LineText(e), k, i, m, Encode(later));
    UndecodableRaises(CutBytesOf(f, e, k) + Encode(later));
  }

  /** A poisonous entry makes the whole registry unusable, whatever is written behind it. */
  lemma PoisonedForGood(f: File, e: Entry, later: string)
    requires Poisonous(e)
    ensures Reload(Encode(Content(Appended(f, e)) + later)).None?
  {
    hide AllLines, Reload, Appended, Poisonous, Encode, Loadable;
    var text := Content(Appended(f, e)) + later;
    DecodeEncoded(text);
    PoisonStays(f, e, later);
    ReloadOf(text, Encode(text));
  }

  lemma LaterIsNoContinuation(later: string)
    requires later == "" || later[0] == '{'
    ensures Encode(later) != [] ==> !IsContinuation(Encode(later)[0])
  {
    EncodedNonEmpty(later);
    if later != "" {
      FirstChar(later);
      assert CharBytes('{') == [0x7B];
    }
  }

  /** What a restart that does not raise finds: everything that was there before, and the entry being
      written exactly when it is storable and at most its line feed is missing. */
  lemma CutCost(f: File, e: Entry, k: nat, i: nat)
    requires CleanEnd(f) && CutAt(LineText(e), k, i, 0)
    ensures k <= |Encode(LineText(e))|
    ensures Reload(CutBytesOf(f, e, k)).Some? ==>
              Reload(CutBytesOf(f, e, k)).value.view
              == if Storable(e) && i >= |EntryText(e)| then Fold(Replay(AllLines(f)), e) else Replay(AllLines(f))
  {
    hide CharBytes, Encode, AllLines, EntryText, Storable, Fold, CleanEnd, Reload;
    CutIsDecodableIff(Content(f), LineText(e), k, i, 0, []);
    assert i <= |LineText(e)|;
    CutReplays(f, e, i);
    ReloadOf(Content(CutFile(f, e, i)), CutBytesOf(f, e, k));
  }

  // ----- such cuts exist -----

  /** A name with a letter beyond ASCII is enough for a cut that makes the registry unreadable. */
  lemma UnreadableCutExists()
    ensures exists e: Entry, k: nat :: Storable(e) && k <= |Encode(LineText(e))| && !BetweenCharacters(e, k)
  {
    hide CharBytes, Encode, EntryText, Storable;
    var name := "é";
    var e := Entry(1, "a", "b", name, 0);
    assert Storable(e) by { PlainName(e); }
    var i := PlaceOfName(e);
    var s := LineText(e);
    TwoBytes();
    var k := |Encode(s[..i])| + 1;
    assert CutAt(s, k, i, 1);
    CutBytes(s, k, i, 1);
    forall j: nat
      ensures !CutAt(s, k, j, 0)
    {
      NoCharacterInside(s, k, i, 1, j);
    }
    assert !BetweenCharacters(e, k);
  }

  lemma TwoBytes()
    ensures |CharBytes('é')| == 2
  {
  }

  lemma PlainName(e: Entry)
    requires e.messageId == "a" && e.jid == "b" && e.name == "é"
    ensures Storable(e)
  {
  }

  lemma NameText(e: Entry)
    requires e.name == "é"
    ensures NamePart(e, "") == (NAME_LABEL + "\"") + ("é" + ("\"" + NumberThen(ORDINAL_LABEL, e.ordinal, "}" + "")))
  {
    hide NumberThen;
    assert Escaped("é") == EscapedChar('é') + Escaped("") == "é";
  }

  lemma PlaceOfName(e: Entry) returns (i: nat)
    requires e.name == "é"
    ensures i < |LineText(e)| && LineText(e)[i] == 'é'
  {
    hide NumberThen, TextThen, NamePart;
    var front := NumberThen(SERIAL_LABEL, e.serial, TextThen(ID_LABEL, e.messageId, TextThen(JID_LABEL, e.jid, NAME_LABEL + "\"")));
    var rest := "\"" + NumberThen(ORDINAL_LABEL, e.ordinal, "}" + "");
    NameText(e);
    TextThenMore(JID_LABEL, e.jid, NAME_LABEL + "\"", "é" + rest);
    TextThenMore(ID_LABEL, e.messageId, TextThen(JID_LABEL, e.jid, NAME_LABEL + "\""), "é" + rest);
    NumberThenMore(SERIAL_LABEL, e.serial, TextThen(ID_LABEL, e.messageId, TextThen(JID_LABEL, e.jid, NAME_LABEL + "\"")), "é" + rest);
    assert EntryText(e) == front + ("é" + rest);
    i := |front|;
  }

  /** One name is enough to make a registry unusable: a display name may hold any of its characters. */
  lemma PoisonedRegistry(f: File, e: Entry, later: string)
    requires e.name == POISONED_NAME
    ensures Reload(Encode(Content(Appended(f, e)) + later)).None?
  {
    PoisonedName(e);
    PoisonedForGood(f, e, later);
  }
}
