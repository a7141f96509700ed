/** Where wrapped text has white space: where the text had it, and where a line breaks. */
module WrapWords {
  import opened Wrap
  import opened WrapLaws

  // --- tokens with something between them ---------------------------------------------------------

  predicate Gappy(s: string)
  {
    forall i :: 0 <= i < |s| ==> IsGap(s[i])
  }

  /** Each token after its own separator. */
  function Woven(seps: seq<string>, toks: seq<Token>): (s: string)
    requires |seps| == |toks|
  {
    if toks == [] then ""
    else
      var n := |toks| - 1;
      Woven(seps[..n], toks[..n]) + seps[n] + toks[n].text
  }

  lemma WovenSnoc(seps: seq<string>, toks: seq<Token>, sep: string, t: Token)
    requires |seps| == |toks|
    ensures Woven(seps + [sep], toks + [t]) == Woven(seps, toks) + sep + t.text
  {
    assert (toks + [t])[..|toks|] == toks && (seps + [sep])[..|seps|] == seps;
  }

  // --- in the text ---------------------------------------------------------------------------------

  /** The separators are the white space that stood before each token, and the tokens know whether there was any. */
  predicate Tells(gaps: seq<string>, toks: seq<Token>)
  {
    |gaps| == |toks| && forall i :: 0 <= i < |toks| ==> Gappy(gaps[i]) && (toks[i].spaced <==> gaps[i] != "")
  }

  lemma TellsSnoc(gaps: seq<string>, toks: seq<Token>, gap: string, t: Token)
    requires Tells(gaps, toks) && Gappy(gap) && (t.spaced <==> gap != "")
    ensures Tells(gaps + [gap], toks + [t])
  {
    hide Gappy;
  }

  /** What has been read is what has been cut off, the white space since, and the token under way. */
  predicate ReadAs(r: Reader, s: string, gaps: seq<string>, gap: string)
  {
    && Tells(gaps, r.out) && Gappy(gap) && (r.pending <==> gap != "")
    && s == Woven(gaps, r.out) + gap + r.cur
  }

  lemma FlushedAs(r: Reader, s: string, gaps: seq<string>, gap: string) returns (gaps': seq<string>, gap': string)
    requires ReadAs(r, s, gaps, gap)
    ensures ReadAs(Flushed(r), s, gaps', gap') && Flushed(r).cur == ""
  {
    hide Gappy;
    gaps', gap' := gaps, gap;
    if r.cur != "" {
      var t := Token(r.cur, r.curW, r.pending);
      TellsSnoc(gaps, r.out, gap, t);
      WovenSnoc(gaps, r.out, gap, t);
      gaps', gap' := gaps + [gap], "";
      NoGap();
      assert Woven(gaps', Flushed(r).out) + "" + "" == Woven(gaps', Flushed(r).out);
    }
  }

  lemma GapAs(f: Reader, s: string, c: char, gaps: seq<string>, gap: string)
    requires ReadAs(f, s, gaps, gap) && f.cur == "" && IsGap(c)
    ensures ReadAs(f.(pending := true), s + [c], gaps, gap + [c])
  {
    assert Gappy(gap + [c]);
    hide Tells, Woven, Gappy;
    assert Woven(gaps, f.out) + (gap + [c]) + "" == Woven(gaps, f.out) + gap + "" + [c];
  }

  lemma WideAs(f: Reader, s: string, c: char, gaps: seq<string>, gap: string)
    requires ReadAs(f, s, gaps, gap) && f.cur == ""
    ensures ReadAs(f.(out := f.out + [Token([c], 2, f.pending)], pending := false), s + [c], gaps + [gap], "")
  {
    hide Gappy;
    var t := Token([c], 2, f.pending);
    TellsSnoc(gaps, f.out, gap, t);
    WovenSnoc(gaps, f.out, gap, t);
    NoGap();
    hide Tells, Woven;
    assert Woven(gaps, f.out) + gap + [c] == Woven(gaps, f.out) + gap + "" + [c];
    assert Woven(gaps + [gap], f.out + [t]) + "" + "" == Woven(gaps + [gap], f.out + [t]);
  }

  lemma NarrowAs(r: Reader, s: string, c: char, gaps: seq<string>, gap: string)
    requires ReadAs(r, s, gaps, gap)
    ensures ReadAs(r.(cur := r.cur + [c], curW := r.curW + 1), s + [c], gaps, gap)
  {
    hide Woven, Gappy;
    assert Woven(gaps, r.out) + gap + (r.cur + [c]) == Woven(gaps, r.out) + gap + r.cur + [c];
  }

  lemma FedAs(r: Reader, s: string, c: char, gaps: seq<string>, gap: string) returns (gaps': seq<string>, gap': string)
    requires ReadAs(r, s, gaps, gap)
    ensures ReadAs(Fed(r, c), s + [c], gaps', gap')
  {
    hide ReadAs, Flushed, IsGap, IsWide;
    if IsGap(c) {
      gaps', gap' := FlushedAs(r, s, gaps, gap);
      GapAs(Flushed(r), s, c, gaps', gap');
      gap' := gap' + [c];
    } else if IsWide(c) {
      gaps', gap' := FlushedAs(r, s, gaps, gap);
      WideAs(Flushed(r), s, c, gaps', gap');
      gaps', gap' := gaps' + [gap'], "";
    } else {
      gaps', gap' := gaps, gap;
      NarrowAs(r, s, c, gaps, gap);
    }
  }

  lemma NoGap()
    ensures Gappy("")
  {
  }

  lemma {:induction false} ReadOverAs(s: string) returns (gaps: seq<string>, gap: string)
    ensures ReadAs(ReadOver(s), s, gaps, gap)
  {
    hide Fed, ReadAs;
    if s == "" {
      gaps, gap := [], "";
      NothingReadAs();
    } else {
      var init, last := s[..|s| - 1], s[|s| - 1];
      gaps, gap := ReadOverAs(init);
      gaps, gap := FedAs(ReadOver(init), init, last, gaps, gap);
      assert init + [last] == s;
    }
  }

  lemma NothingReadAs()
    ensures ReadAs(Reader([], "", 0, false), "", [], "")
  {
  }

  /** A text is its tokens with white space between them, and a token is marked exactly where there was some. */
  lemma TokensWoven(s: string) returns (gaps: seq<string>, tail: string)
    ensures Tells(gaps, Tokens(s)) && Gappy(tail) && s == Woven(gaps, Tokens(s)) + tail
  {
    gaps, tail := ReadOverAs(s);
    hide ReadOver, Flushed, Woven, Gappy;
    gaps, tail := FlushedAs(ReadOver(s), s, gaps, tail);
    assert Woven(gaps, Tokens(s)) + tail + "" == Woven(gaps, Tokens(s)) + tail;
  }

  // --- in the wrapped text ----------------------------------------------------------------------------

  /** Token `i` is the first of a line that is not the first. */
  ghost predicate BreakAt(lines: seq<seq<Token>>, i: nat)
  {
    exists k :: 0 < k < |lines| && |Flat(lines[..k])| == i
  }

  /** What is written before token `i`. */
  ghost function Separator(toks: seq<Token>, lines: seq<seq<Token>>, indent: string, i: nat): (s: string)
    requires i < |toks|
  {
    if BreakAt(lines, i) then "\n" + indent
    else if i > 0 && toks[i].spaced && !Closes(toks[i]) then " "
    else ""
  }

  ghost function Separators(toks: seq<Token>, lines: seq<seq<Token>>, indent: string): (seps: seq<string>)
    ensures |seps| == |toks| && forall i :: 0 <= i < |toks| ==> seps[i] == Separator(toks, lines, indent, i)
  {
    seq(|toks|, i requires 0 <= i < |toks| => Separator(toks, lines, indent, i))
  }

  /** Lines written so far keep their breaks, and a new line is one more. */
  lemma BreaksAfterPlace(lines: seq<seq<Token>>, t: Token, width: int, i: nat)
    requires lines != [] && (forall k :: 0 <= k < |lines| ==> lines[k] != []) && i <= |Flat(lines)|
    ensures BreakAt(Place(lines, t, width), i)
       <==> if i < |Flat(lines)| then BreakAt(lines, i) else !Stays(LastWidth(lines), t, width)
  {
    hide Stays, LineWidth, Flat;
    var m := |lines|;
    var now := Place(lines, t, width);
    FlatSnoc(lines[..m - 1], lines[m - 1]);
    assert lines == lines[..m - 1] + [lines[m - 1]];
    assert forall k :: 0 <= k < m ==> now[..k] == lines[..k];
    forall k | 0 <= k < m ensures |Flat(lines[..k])| < |Flat(lines)| {
      FlatGrows(lines, k);
    }
    if !Stays(LastWidth(lines), t, width) {
      assert now[..m] == lines;
    }
    if BreakAt(now, i) {
      var k :| 0 < k < |now| && |Flat(now[..k])| == i;
      if k < m {
        assert |Flat(lines[..k])| == i;
      }
    }
    if i < |Flat(lines)| && BreakAt(lines, i) {
      var k :| 0 < k < |lines| && |Flat(lines[..k])| == i;
      assert |Flat(now[..k])| == i;
    }
    if i == |Flat(lines)| && !Stays(LastWidth(lines), t, width) {
      assert |Flat(now[..m])| == i;
    }
  }

  lemma {:induction false} FlatGrows(lines: seq<seq<Token>>, k: nat)
    requires k < |lines| && forall j :: 0 <= j < |lines| ==> lines[j] != []
    ensures |Flat(lines[..k])| < |Flat(lines)|
  {
    var init := lines[..|lines| - 1];
    if k < |init| {
      FlatGrows(init, k);
      assert init[..k] == lines[..k];
    }
  }

  lemma {:induction false} SomeWidth(line: seq<Token>)
    requires line != [] && AllSound(line)
    ensures LineWidth(line) > 0
  {
    hide Closes;
    assert Sound(line[|line| - 1]);
  }

  lemma LastHasWidth(toks: seq<Token>, width: int)
    requires toks != [] && AllSound(toks)
    ensures LastWidth(Layout(toks, width)) > 0
  {
    hide Layout, Sound, LineWidth, Flat;
    var lines := Layout(toks, width);
    LayoutKeeps(toks, width);
    NoEmptyLine(toks, width);
    var m := |lines| - 1;
    LineWithin(lines, m);
    SoundIn(lines[m], toks);
    SomeWidth(lines[m]);
  }

  /** Before the last token stands what the separator of that place says. */
  lemma LastSeparator(toks: seq<Token>, width: int, indent: string)
    requires toks != [] && AllSound(toks)
    ensures var n := |toks| - 1;
            var text := Render(Layout(toks[..n], width), indent);
            Render(Layout(toks, width), indent) == text + Separator(toks, Layout(toks, width), indent, n) + toks[n].text
  {
    hide Render, Place, LastWidth, Closes, Sound, Flat, LineWidth;
    var n := |toks| - 1;
    var init, t := toks[..n], toks[n];
    PlaceRenders(Layout(init, width), t, width, indent);
    LayoutKeeps(init, width);
    if n == 0 {
      FirstToken(t, width, indent);
      assert toks == [t];
    } else {
      NoEmptyLine(init, width);
      BreaksAfterPlace(Layout(init, width), t, width, n);
      LastHasWidth(init, width);
    }
  }

  lemma FirstToken(t: Token, width: int, indent: string)
    ensures Layout([], width) == [] && Layout([t], width) == [[t]] && !BreakAt([[t]], 0)
    ensures Render([[t]], indent) == t.text && Render([], indent) == ""
  {
    hide LineWidth, RenderLine, Closes, Render, Flat, Stays;
    assert [t][..0] == [];
    NothingRendered(indent);
    RenderSnoc([], [t], indent);
    WidthSnoc([], t);
    assert [] + [[t]] == [[t]] && [] + [t] == [t];
  }

  lemma EarlierSeparators(toks: seq<Token>, width: int, indent: string)
    requires toks != [] && AllSound(toks)
    ensures var n := |toks| - 1;
            Separators(toks, Layout(toks, width), indent)[..n] == Separators(toks[..n], Layout(toks[..n], width), indent)
  {
    hide Place, Closes, Flat, BreakAt;
    var n := |toks| - 1;
    var init, t := toks[..n], toks[n];
    LayoutKeeps(init, width);
    NoEmptyLine(init, width);
    forall i | 0 <= i < n
      ensures Separator(toks, Layout(toks, width), indent, i) == Separator(init, Layout(init, width), indent, i)
    {
      BreaksAfterPlace(Layout(init, width), t, width, i);
    }
  }

  /** The wrapped text is the tokens with just these separators. */
  lemma {:induction false} LayoutWoven(toks: seq<Token>, width: int, indent: string)
    requires AllSound(toks)
    ensures Render(Layout(toks, width), indent) == Woven(Separators(toks, Layout(toks, width), indent), toks)
  {
    hide Place, Render, Sound, Separator;
    if toks == [] {
      NothingRendered(indent);
    } else {
      var n := |toks| - 1;
      LayoutWoven(toks[..n], width, indent);
      LastSeparator(toks, width, indent);
      EarlierSeparators(toks, width, indent);
    }
  }

  /**
   * The white space of a wrapped text, for all texts: text and result are the same tokens, apart by `gaps` in the
   * one and by separators in the other. A separator is a line break and the indent where a line begins, one
   * blank where the text had white space and no closing punctuation follows, and nothing elsewhere.
   */
  lemma WhiteSpaceStays(s: string, width: int, indent: string) returns (gaps: seq<string>, tail: string)
    ensures var toks := Tokens(s);
            var lines := Layout(toks, width);
            && |gaps| == |toks| && s == Woven(gaps, toks) + tail && Gappy(tail)
            && Wrapped(s, width, indent) == Woven(Separators(toks, lines, indent), toks)
            && forall i :: 0 <= i < |toks| ==>
                 && Gappy(gaps[i])
                 && Separators(toks, lines, indent)[i]
                    == (if BreakAt(lines, i) then "\n" + indent
                        else if i > 0 && gaps[i] != "" && !Closes(toks[i]) then " " else "")
  {
    hide Tokens, Layout, Woven, Closes, BreakAt, AllSound, Gappy, Texts;
    gaps, tail := TokensWoven(s);
    TokensKeepText(s);
    LayoutWoven(Tokens(s), width, indent);
  }

  // --- words --------------------------------------------------------------------------------------------

  /** The words so far, and the one under way. */
  function WordsOver(s: string): (r: (seq<string>, string))
  {
    if s == "" then ([], "")
    else
      var (words, cur) := WordsOver(s[..|s| - 1]);
      var c := s[|s| - 1];
      if !IsGap(c) then (words, cur + [c]) else (Ended(words, cur), "")
  }

  function Ended(words: seq<string>, cur: string): (r: seq<string>)
  {
    if cur == "" then words else words + [cur]
  }

  /** The maximal runs of a text without white space. */
  function Words(s: string): (words: seq<string>)
  {
    Ended(WordsOver(s).0, WordsOver(s).1)
  }

  lemma {:induction false} GapEndsWord(s: string, gap: string)
    requires Gappy(gap) && gap != ""
    ensures WordsOver(s + gap) == (Words(s), "")
    decreases |gap|
  {
    hide IsGap;
    var init := gap[..|gap| - 1];
    assert (s + gap)[..|s + gap| - 1] == s + init;
    if init == "" {
      assert s + init == s;
    } else {
      GapEndsWord(s, init);
    }
  }

  lemma {:induction false} SolidGrowsWord(s: string, word: string)
    requires Solid(word)
    ensures WordsOver(s + word) == (WordsOver(s).0, WordsOver(s).1 + word)
    decreases |word|
  {
    hide IsGap;
    if word == "" {
      assert s + word == s && WordsOver(s).1 + "" == WordsOver(s).1;
    } else {
      var init := word[..|word| - 1];
      SolidGrowsWord(s, init);
      assert (s + word)[..|s + word| - 1] == s + init;
      assert WordsOver(s).1 + init + [word[|word| - 1]] == WordsOver(s).1 + word;
    }
  }

  function TextList(toks: seq<Token>): (out: seq<string>)
    ensures |out| == |toks| && forall i :: 0 <= i < |toks| ==> out[i] == toks[i].text
  {
    seq(|toks|, i requires 0 <= i < |toks| => toks[i].text)
  }

  /** Kept apart by white space, the tokens are the words. */
  predicate Apart(seps: seq<string>)
  {
    forall i :: 0 <= i < |seps| ==> Gappy(seps[i]) && (i > 0 ==> seps[i] != "")
  }

  lemma {:induction false} WordsOfWoven(seps: seq<string>, toks: seq<Token>)
    requires |seps| == |toks| && toks != [] && AllSound(toks) && Apart(seps)
    ensures var n := |toks| - 1; WordsOver(Woven(seps, toks)) == (TextList(toks[..n]), toks[n].text)
  {
    hide Gappy, Solid, Columns;
    var n := |toks| - 1;
    var init := Woven(seps[..n], toks[..n]);
    assert Sound(toks[n]);
    if n == 0 {
      assert init == "";
      if seps[0] != "" {
        GapEndsWord("", seps[0]);
      }
      assert "" + seps[0] == seps[0];
    } else {
      WordsOfWoven(seps[..n], toks[..n]);
      GapEndsWord(init, seps[n]);
      assert TextList(toks[..n][..n - 1]) + [toks[n - 1].text] == TextList(toks[..n]);
      assert Sound(toks[..n][n - 1]);
    }
    SolidGrowsWord(init + seps[n], toks[n].text);
    assert "" + toks[n].text == toks[n].text;
  }

  lemma WordsAreTexts(seps: seq<string>, toks: seq<Token>, tail: string)
    requires |seps| == |toks| && AllSound(toks) && Apart(seps) && Gappy(tail)
    ensures Words(Woven(seps, toks) + tail) == TextList(toks)
  {
    hide Gappy, Solid, Columns, IsGap;
    var s := Woven(seps, toks);
    if toks != [] {
      WordsOfWoven(seps, toks);
      var n := |toks| - 1;
      assert Sound(toks[n]);
      assert TextList(toks[..n]) + [toks[n].text] == TextList(toks);
    }
    assert Words(s) == TextList(toks);
    if tail == "" {
      assert s + tail == s;
    } else {
      GapEndsWord(s, tail);
    }
  }

  predicate Narrow(s: string)
  {
    forall i :: 0 <= i < |s| ==> !IsWide(s[i])
  }

  predicate LaterSpaced(toks: seq<Token>)
  {
    forall i :: 0 < i < |toks| ==> toks[i].spaced
  }

  /** Without wide characters only white space separates tokens. */
  lemma {:induction false} NarrowReads(s: string)
    requires Narrow(s)
    ensures var r := ReadOver(s); LaterSpaced(r.out) && (r.out != [] ==> r.pending)
  {
    hide IsGap, IsWide;
    if s != "" {
      NarrowReads(s[..|s| - 1]);
    }
  }

  /**
   * Words stay apart and whole: a text of narrow characters in which no word is closing punctuation by itself has
   * the same words, in the same order, after wrapping, to any width and with any blank indent.
   */
  lemma WordsStay(s: string, width: int, indent: string)
    requires Narrow(s) && NoneCloses(Tokens(s)) && Gappy(indent)
    ensures Words(Wrapped(s, width, indent)) == Words(s)
  {
    var toks := Tokens(s);
    var seps := Separators(toks, Layout(toks, width), indent);
    NarrowTokens(s);
    TokensKeepText(s);
    var gaps, tail := TokensWoven(s);
    hide Tokens, Woven, Words, NoneCloses, Layout, AllSound, Separators, Gappy, Narrow, Tells, LaterSpaced, Apart;
    LayoutWoven(toks, width, indent);
    NoGap();
    GapsApart(gaps, toks);
    WordsAreTexts(gaps, toks, tail);
    SeparatorsApart(toks, Layout(toks, width), indent);
    WordsAreTexts(seps, toks, "");
    assert Woven(seps, toks) + "" == Woven(seps, toks);
  }

  lemma NarrowTokens(s: string)
    requires Narrow(s)
    ensures LaterSpaced(Tokens(s))
  {
    NarrowReads(s);
    hide ReadOver;
  }

  lemma GapsApart(gaps: seq<string>, toks: seq<Token>)
    requires Tells(gaps, toks) && LaterSpaced(toks)
    ensures |gaps| == |toks| && Apart(gaps)
  {
    hide Gappy;
  }

  lemma SeparatorsApart(toks: seq<Token>, lines: seq<seq<Token>>, indent: string)
    requires LaterSpaced(toks) && NoneCloses(toks) && Gappy(indent)
    ensures Apart(Separators(toks, lines, indent))
  {
    NewLineIsGap(indent);
    hide Gappy, BreakAt, Closes;
  }

  lemma NewLineIsGap(indent: string)
    requires Gappy(indent)
    ensures Gappy("\n" + indent) && Gappy(" ") && Gappy("")
  {
  }
}
