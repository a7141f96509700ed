/** What wrapping promises: the text stays, lines fit, and no layout of the same tokens has fewer lines. */
module WrapLaws {
  import opened GoStrings
  import opened Wrap

  // --- the text stays ---------------------------------------------------------------------------

  lemma {:induction false} SqueezedBoth(x: string, y: string)
    ensures Squeezed(x + y) == Squeezed(x) + Squeezed(y)
    decreases |y|
  {
    if y == "" {
      assert x + y == x;
    } else {
      assert (x + y)[..|x + y| - 1] == x + y[..|y| - 1];
      SqueezedBoth(x, y[..|y| - 1]);
    }
  }

  predicate Solid(s: string)
  {
    forall i :: 0 <= i < |s| ==> !IsGap(s[i])
  }

  lemma {:induction false} SolidSqueezed(s: string)
    requires Solid(s)
    ensures Squeezed(s) == s
  {
    if s != "" {
      SolidSqueezed(s[..|s| - 1]);
      assert s == s[..|s| - 1] + [s[|s| - 1]];
    }
  }

  lemma {:induction false} GapsSqueezed(s: string)
    requires forall i :: 0 <= i < |s| ==> IsGap(s[i])
    ensures Squeezed(s) == ""
  {
    if s != "" {
      GapsSqueezed(s[..|s| - 1]);
    }
  }

  lemma {:induction false} ColumnsBoth(x: string, y: string)
    ensures Columns(x + y) == Columns(x) + Columns(y)
    decreases |y|
  {
    hide IsWide;
    if y == "" {
      assert x + y == x;
    } else {
      assert (x + y)[..|x + y| - 1] == x + y[..|y| - 1];
      ColumnsBoth(x, y[..|y| - 1]);
    }
  }

  function Texts(toks: seq<Token>): (s: string)
  {
    if toks == [] then "" else Texts(toks[..|toks| - 1]) + toks[|toks| - 1].text
  }

  /** A token is a piece of text without white space, as wide as its characters are. */
  predicate Sound(t: Token)
  {
    t.text != "" && Solid(t.text) && t.width == Columns(t.text) && t.width > 0
  }

  predicate AllSound(toks: seq<Token>)
  {
    forall i :: 0 <= i < |toks| ==> Sound(toks[i])
  }

  lemma TextsSnoc(toks: seq<Token>, t: Token)
    ensures Texts(toks + [t]) == Texts(toks) + t.text
  {
    assert (toks + [t])[..|toks|] == toks;
  }

  /** The reader has split what it read into sound tokens, and lost nothing but white space. */
  predicate ReadSo(r: Reader, s: string)
  {
    && AllSound(r.out)
    && Solid(r.cur) && r.curW == Columns(r.cur) && (r.cur != "" ==> r.curW > 0)
    && Texts(r.out) + r.cur == Squeezed(s)
  }

  lemma FlushedSo(r: Reader, s: string)
    requires ReadSo(r, s)
    ensures ReadSo(Flushed(r), s) && Flushed(r).cur == "" && Texts(Flushed(r).out) == Squeezed(s)
  {
    if r.cur != "" {
      TextsSnoc(r.out, Token(r.cur, r.curW, r.pending));
    }
    assert Texts(Flushed(r).out) + "" == Texts(Flushed(r).out);
  }

  lemma OneColumns(c: char)
    ensures Columns([c]) == if IsWide(c) then 2 else 1
  {
    hide IsWide;
    assert [c][..0] == "";
  }

  lemma SqueezedSnoc(s: string, c: char)
    ensures Squeezed(s + [c]) == if IsGap(c) then Squeezed(s) else Squeezed(s) + [c]
  {
    assert (s + [c])[..|s|] == s;
  }

  lemma SoundSnoc(toks: seq<Token>, t: Token)
    requires AllSound(toks) && Sound(t)
    ensures AllSound(toks + [t])
  {
    hide Sound;
  }

  lemma FedSo(r: Reader, s: string, c: char)
    requires ReadSo(r, s)
    ensures ReadSo(Fed(r, c), s + [c])
  {
    SqueezedSnoc(s, c);
    FlushedSo(r, s);
    OneColumns(c);
    if IsGap(c) {
      hide ReadSo, Flushed, IsGap, IsWide, Columns, Squeezed;
      SameSo(Flushed(r), s, Fed(r, c), s + [c]);
    } else if IsWide(c) {
      var f := Flushed(r);
      var t := Token([c], 2, f.pending);
      assert Sound(t);
      hide IsGap, IsWide, Columns, Squeezed, Texts, Sound, Flushed;
      TextsSnoc(f.out, t);
      SoundSnoc(f.out, t);
      assert Texts(f.out + [t]) + "" == Texts(f.out + [t]);
    } else {
      assert Solid(r.cur + [c]);
      hide IsWide, Columns, Texts, Squeezed, IsGap, Solid, AllSound;
      ColumnsBoth(r.cur, [c]);
      assert Texts(r.out) + (r.cur + [c]) == Texts(r.out) + r.cur + [c];
    }
  }

  lemma SameSo(r: Reader, s: string, r': Reader, s': string)
    requires ReadSo(r, s) && r'.out == r.out && r'.cur == r.cur && r'.curW == r.curW && Squeezed(s') == Squeezed(s)
    ensures ReadSo(r', s')
  {
    hide Squeezed, Columns, Texts, Solid, AllSound;
  }

  lemma {:induction false} ReadOverSo(s: string)
    ensures ReadSo(ReadOver(s), s)
  {
    hide Fed;
    if s == "" {
      assert "" + "" == "";
    } else {
      ReadOverSo(s[..|s| - 1]);
      FedSo(ReadOver(s[..|s| - 1]), s[..|s| - 1], s[|s| - 1]);
      assert s == s[..|s| - 1] + [s[|s| - 1]];
    }
  }

  lemma TokensKeepText(s: string)
    ensures AllSound(Tokens(s)) && Texts(Tokens(s)) == Squeezed(s)
  {
    hide ReadOver, Texts;
    ReadOverSo(s);
    FlushedSo(ReadOver(s), s);
  }

  function Flat(lines: seq<seq<Token>>): (out: seq<Token>)
  {
    if lines == [] then [] else Flat(lines[..|lines| - 1]) + lines[|lines| - 1]
  }

  lemma FlatSnoc(lines: seq<seq<Token>>, line: seq<Token>)
    ensures Flat(lines + [line]) == Flat(lines) + line
  {
    assert (lines + [line])[..|lines|] == lines;
  }

  lemma PlaceKeeps(lines: seq<seq<Token>>, t: Token, width: int)
    ensures Flat(Place(lines, t, width)) == Flat(lines) + [t]
  {
    hide Stays, LineWidth;
    if lines == [] {
      FlatSnoc([], [t]);
      assert [[t]] == [] + [[t]];
    } else {
      var init, last := lines[..|lines| - 1], lines[|lines| - 1];
      FlatSnoc(init, last + [t]);
      FlatSnoc(lines, [t]);
      assert Flat(init) + (last + [t]) == Flat(init) + last + [t];
    }
  }

  /** The lines hold the tokens, all of them and in their order. */
  lemma {:induction false} LayoutKeeps(toks: seq<Token>, width: int)
    ensures Flat(Layout(toks, width)) == toks
  {
    hide Place;
    if toks != [] {
      LayoutKeeps(toks[..|toks| - 1], width);
      PlaceKeeps(Layout(toks[..|toks| - 1], width), toks[|toks| - 1], width);
    }
  }

  lemma {:induction false} TextsBoth(x: seq<Token>, y: seq<Token>)
    ensures Texts(x + y) == Texts(x) + Texts(y)
    decreases |y|
  {
    if y == [] {
      assert x + y == x;
    } else {
      var init, last := y[..|y| - 1], y[|y| - 1];
      assert (x + y)[..|x + y| - 1] == x + init;
      TextsBoth(x, init);
      assert Texts(x) + (Texts(init) + last.text) == Texts(x) + Texts(init) + last.text;
    }
  }

  lemma {:induction false} LineText(line: seq<Token>)
    requires AllSound(line)
    ensures Squeezed(RenderLine(line)) == Texts(line)
  {
    hide Squeezed, LineWidth, Gap, Columns;
    if line == [] {
      GapsSqueezed("");
    } else {
      var init, t := line[..|line| - 1], line[|line| - 1];
      LineText(init);
      var gap := if Gap(LineWidth(init), t) == 1 then " " else "";
      GapsSqueezed(gap);
      SolidSqueezed(t.text);
      SqueezedBoth(RenderLine(init), gap);
      SqueezedBoth(RenderLine(init) + gap, t.text);
      assert Texts(init) + "" == Texts(init);
    }
  }

  predicate Blanks(indent: string)
  {
    forall i :: 0 <= i < |indent| ==> IsGap(indent[i])
  }

  lemma {:induction false} LinesText(lines: seq<seq<Token>>, indent: string)
    requires AllSound(Flat(lines)) && Blanks(indent)
    ensures Squeezed(Render(lines, indent)) == Texts(Flat(lines))
  {
    hide Squeezed, RenderLine, Texts, Sound;
    if lines == [] {
      GapsSqueezed("");
      NoTexts();
    } else {
      var init, last := lines[..|lines| - 1], lines[|lines| - 1];
      var all := Flat(lines);
      assert all == Flat(init) + last;
      SoundParts(Flat(init), last);
      LinesText(init, indent);
      var break_ := if |lines| == 1 then "" else "\n" + indent;
      GapsSqueezed(break_);
      LineText(last);
      SqueezedBoth(Render(init, indent), break_);
      SqueezedBoth(Render(init, indent) + break_, RenderLine(last));
      TextsBoth(Flat(init), last);
      assert Texts(Flat(init)) + "" == Texts(Flat(init));
    }
  }

  lemma NoTexts()
    ensures Texts([]) == ""
  {
  }

  lemma SoundParts(x: seq<Token>, y: seq<Token>)
    requires AllSound(x + y)
    ensures AllSound(x) && AllSound(y)
  {
    hide Sound;
    assert forall i :: 0 <= i < |x| ==> (x + y)[i] == x[i];
    assert forall i :: 0 <= i < |y| ==> (x + y)[|x| + i] == y[i];
  }

  /** Wrapping changes white space and nothing else, whatever the text and the width. */
  lemma WrapKeepsText(s: string, width: int, indent: string)
    requires Blanks(indent)
    ensures Squeezed(Wrapped(s, width, indent)) == Squeezed(s)
  {
    hide Tokens, Layout, Render, Squeezed, Texts, AllSound, Flat;
    TokensKeepText(s);
    LayoutKeeps(Tokens(s), width);
    LinesText(Layout(Tokens(s), width), indent);
  }

  // --- lines fit -------------------------------------------------------------------------------------

  /** A line's width is the number of columns it is shown in. */
  lemma {:induction false} WidthIsColumns(line: seq<Token>)
    requires AllSound(line)
    ensures LineWidth(line) == Columns(RenderLine(line))
  {
    hide IsWide, Columns, Closes;
    if line == [] {
      NoColumns();
    } else {
      var init, t := line[..|line| - 1], line[|line| - 1];
      WidthIsColumns(init);
      var gap := if Gap(LineWidth(init), t) == 1 then " " else "";
      NoColumns();
      ColumnsBoth(RenderLine(init), gap);
      ColumnsBoth(RenderLine(init) + gap, t.text);
      assert Sound(t);
    }
  }

  lemma NoColumns()
    ensures Columns("") == 0 && Columns(" ") == 1
  {
    assert " "[..0] == "";
  }

  /** Everything up to a token that could have begun a line of its own fits, unless that token is the first. */
  predicate Fits(line: seq<Token>, width: int)
  {
    forall i :: 0 < i < |line| && !Closes(line[i]) ==> LineWidth(line[..i + 1]) <= width
  }

  predicate AllFit(lines: seq<seq<Token>>, width: int)
  {
    forall i :: 0 <= i < |lines| ==> lines[i] != [] && Fits(lines[i], width)
  }

  lemma {:induction false} WidthPositive(line: seq<Token>)
    requires line != [] && AllSound(line)
    ensures LineWidth(line) > 0
  {
    assert Sound(line[|line| - 1]);
  }

  lemma FitsSnoc(line: seq<Token>, t: Token, width: int)
    requires line != [] && AllSound(line) && Fits(line, width) && Stays(LineWidth(line), t, width)
    ensures Fits(line + [t], width)
  {
    hide LineWidth, Closes, Sound;
    WidthPositive(line);
    var more := line + [t];
    forall i | 0 < i < |more| && !Closes(more[i]) ensures LineWidth(more[..i + 1]) <= width {
      if i < |line| {
        assert more[..i + 1] == line[..i + 1];
      } else {
        assert more[..i + 1] == more;
        WidthSnoc(line, t);
      }
    }
  }

  lemma PlaceFits(lines: seq<seq<Token>>, t: Token, width: int)
    requires AllFit(lines, width) && AllSound(Flat(lines))
    ensures AllFit(Place(lines, t, width), width)
  {
    hide LineWidth, Closes, Sound, Stays;
    if lines != [] {
      var init, last := lines[..|lines| - 1], lines[|lines| - 1];
      SoundParts(Flat(init), last);
      if Stays(LineWidth(last), t, width) {
        FitsSnoc(last, t, width);
      }
    }
  }

  /** Lines overflow by closing punctuation alone, or by one token that is too wide for any line. */
  lemma {:induction false} LinesFit(toks: seq<Token>, width: int)
    requires AllSound(toks)
    ensures AllFit(Layout(toks, width), width)
  {
    hide Place, Sound, Fits;
    if toks != [] {
      var init := toks[..|toks| - 1];
      LinesFit(init, width);
      LayoutKeeps(init, width);
      PlaceFits(Layout(init, width), toks[|toks| - 1], width);
    }
  }

  predicate NoneCloses(toks: seq<Token>)
  {
    forall i :: 0 <= i < |toks| ==> !Closes(toks[i])
  }

  /** Without closing punctuation a line fits, or is one token. */
  lemma WholeLineFits(line: seq<Token>, width: int)
    requires line != [] && Fits(line, width) && NoneCloses(line)
    ensures LineWidth(line) <= width || |line| == 1
  {
    hide LineWidth, Closes;
    if |line| > 1 {
      var i := |line| - 1;
      assert !Closes(line[i]) && line[..i + 1] == line;
    }
  }

  // --- and there are as few as can be ------------------------------------------------------------------------

  /** Some way to lay tokens out on lines that fit. */
  predicate Valid(lines: seq<seq<Token>>, width: int)
  {
    forall i :: 0 <= i < |lines| ==> lines[i] != [] && (LineWidth(lines[i]) <= width || |lines[i]| == 1)
  }

  /** Leaving out the first tokens of a line makes it narrower, if anything. */
  lemma {:induction false} SuffixIsNarrower(line: seq<Token>, k: nat)
    requires k <= |line|
    ensures LineWidth(line[k..]) <= LineWidth(line)
  {
    hide Closes;
    if k < |line| {
      var init := line[..|line| - 1];
      SuffixIsNarrower(init, k);
      assert line[k..][..|line| - k - 1] == init[k..];
    }
  }

  /** A layout without its last token. */
  function Shorter(lines: seq<seq<Token>>): (out: seq<seq<Token>>)
    requires lines != [] && lines[|lines| - 1] != []
  {
    var init, last := lines[..|lines| - 1], lines[|lines| - 1];
    if |last| == 1 then init else init + [last[..|last| - 1]]
  }

  lemma ShorterIsValid(lines: seq<seq<Token>>, width: int)
    requires lines != [] && Valid(lines, width)
    ensures Valid(Shorter(lines), width)
    ensures Flat(lines) != [] && Flat(Shorter(lines)) == Flat(lines)[..|Flat(lines)| - 1]
  {
    hide Closes, LineWidth, Flat;
    var init, last := lines[..|lines| - 1], lines[|lines| - 1];
    FlatSnoc(init, last);
    assert lines == init + [last];
    if |last| == 1 {
      assert Flat(init) == (Flat(init) + last)[..|Flat(init) + last| - 1];
    } else {
      var less := last[..|last| - 1];
      PrefixIsNarrower(last);
      FlatSnoc(init, less);
      assert Flat(init) + less == (Flat(init) + last)[..|Flat(init) + last| - 1];
      ValidSnoc(init, less, width);
    }
  }

  lemma PrefixIsNarrower(line: seq<Token>)
    requires line != []
    ensures LineWidth(line[..|line| - 1]) <= LineWidth(line)
  {
    hide Closes;
  }

  lemma ValidSnoc(lines: seq<seq<Token>>, line: seq<Token>, width: int)
    requires Valid(lines, width) && line != [] && (LineWidth(line) <= width || |line| == 1)
    ensures Valid(lines + [line], width)
  {
    hide LineWidth;
  }

  /** Greedy is ahead: with as many lines as another layout, its last line begins no earlier. */
  predicate Ahead(greedy: seq<seq<Token>>, other: seq<seq<Token>>)
  {
    || |greedy| < |other|
    || (|greedy| == |other| && (greedy == [] || |greedy[|greedy| - 1]| <= |other[|other| - 1]|))
  }

  lemma LastIsSuffix(lines: seq<seq<Token>>)
    requires lines != []
    ensures var last := lines[|lines| - 1];
            |last| <= |Flat(lines)| && last == Flat(lines)[|Flat(lines)| - |last|..]
  {
  }

  /** If the other layout keeps the next token on its last line, then greedy, being no further left, does too. */
  lemma GreedyKeepsUp(greedy: seq<seq<Token>>, other: seq<Token>, t: Token, width: int)
    requires greedy != [] && other != [] && greedy[|greedy| - 1] != []
    requires |greedy[|greedy| - 1]| <= |other| && greedy[|greedy| - 1] == other[|other| - |greedy[|greedy| - 1]|..]
    requires LineWidth(other + [t]) <= width
    ensures Stays(LineWidth(greedy[|greedy| - 1]), t, width)
  {
    hide LineWidth, Closes;
    var last := greedy[|greedy| - 1];
    var k := |other| - |last|;
    SuffixIsNarrower(other + [t], k);
    assert (other + [t])[k..] == last + [t];
    WidthSnoc(last, t);
  }

  lemma AheadStep(greedy: seq<seq<Token>>, lines: seq<seq<Token>>, t: Token, width: int)
    requires lines != [] && Valid(lines, width)
    requires Flat(lines) == Flat(greedy) + [t]
    requires forall i :: 0 <= i < |greedy| ==> greedy[i] != []
    requires Ahead(greedy, Shorter(lines))
    ensures Ahead(Place(greedy, t, width), lines)
  {
    hide LineWidth, Closes, Stays;
    var last := lines[|lines| - 1];
    if greedy != [] && |last| > 1 && |greedy| == |lines| {
      var init := last[..|last| - 1];
      ShorterIsValid(lines, width);
      LastIsSuffix(greedy);
      LastIsSuffix(Shorter(lines));
      assert Flat(Shorter(lines)) == Flat(greedy);
      LastIsSuffix(lines);
      assert last == init + [t];
      SameSuffix(Flat(greedy), greedy[|greedy| - 1], init);
      GreedyKeepsUp(greedy, init, t, width);
    }
  }

  lemma SameSuffix(all: seq<Token>, short: seq<Token>, long: seq<Token>)
    requires |short| <= |long| <= |all|
    requires short == all[|all| - |short|..] && long == all[|all| - |long|..]
    ensures short == long[|long| - |short|..]
  {
  }

  lemma {:induction false} GreedyIsAhead(toks: seq<Token>, lines: seq<seq<Token>>, width: int)
    requires Valid(lines, width) && Flat(lines) == toks
    ensures Ahead(Layout(toks, width), lines)
    decreases |toks|
  {
    hide Place, Ahead, LineWidth;
    if toks == [] {
      NothingIsAhead(lines, width);
    } else {
      var init, t := toks[..|toks| - 1], toks[|toks| - 1];
      assert lines != [];
      ShorterIsValid(lines, width);
      GreedyIsAhead(init, Shorter(lines), width);
      LayoutKeeps(init, width);
      NoEmptyLine(init, width);
      AheadStep(Layout(init, width), lines, t, width);
    }
  }

  lemma NothingIsAhead(lines: seq<seq<Token>>, width: int)
    ensures Ahead([], lines)
  {
  }

  lemma {:induction false} NoEmptyLine(toks: seq<Token>, width: int)
    ensures forall i :: 0 <= i < |Layout(toks, width)| ==> Layout(toks, width)[i] != []
  {
    hide Stays, LineWidth;
    if toks != [] {
      NoEmptyLine(toks[..|toks| - 1], width);
    }
  }

  lemma LayoutIsValid(toks: seq<Token>, width: int)
    requires AllSound(toks) && NoneCloses(toks)
    ensures Valid(Layout(toks, width), width)
  {
    hide LineWidth, Closes, Sound, Layout;
    LayoutKeeps(toks, width);
    LinesFit(toks, width);
    var lines := Layout(toks, width);
    hide Flat, Fits, AllSound;
    forall i | 0 <= i < |lines| ensures lines[i] != [] && (LineWidth(lines[i]) <= width || |lines[i]| == 1) {
      LineWithin(lines, i);
      NoneClosesIn(lines[i], toks);
      WholeLineFits(lines[i], width);
    }
  }

  /**
   * For text without closing punctuation the layout is one in which every line fits or is a single token that
   * cannot, and no such layout of the same tokens has fewer lines.
   */
  lemma FewestLines(toks: seq<Token>, width: int, others: seq<seq<Token>>)
    requires AllSound(toks) && NoneCloses(toks)
    requires Valid(others, width) && Flat(others) == toks
    ensures Valid(Layout(toks, width), width) && Flat(Layout(toks, width)) == toks
    ensures |Layout(toks, width)| <= |others|
  {
    GreedyIsAhead(toks, others, width);
    LayoutKeeps(toks, width);
    LayoutIsValid(toks, width);
  }

  lemma NoneClosesIn(line: seq<Token>, toks: seq<Token>)
    requires NoneCloses(toks) && forall t :: t in line ==> t in toks
    ensures NoneCloses(line)
  {
    hide Closes;
    forall i | 0 <= i < |line| ensures !Closes(line[i]) {
      assert line[i] in toks;
    }
  }

  lemma {:induction false} LineWithin(lines: seq<seq<Token>>, i: nat)
    requires i < |lines|
    ensures forall t :: t in lines[i] ==> t in Flat(lines)
  {
    if i < |lines| - 1 {
      LineWithin(lines[..|lines| - 1], i);
    }
  }

  // --- the lines of the text itself ---------------------------------------------------------------------------

  lemma {:induction false} SplitLast(x: string, piece: string)
    requires '\n' !in piece
    ensures Split(x + "\n" + piece, '\n') == Split(x, '\n') + [piece]
  {
    var s := x + "\n" + piece;
    if x == "" {
      assert s[1..] == piece && s[0] == '\n';
      SplitFirst(piece, '\n', "");
    } else {
      assert s[1..] == x[1..] + "\n" + piece;
      SplitLast(x[1..], piece);
    }
  }

  function ShownLines(lines: seq<seq<Token>>, indent: string): (r: seq<string>)
    ensures |r| == |lines|
    ensures forall i :: 0 <= i < |lines| ==> r[i] == (if i == 0 then "" else indent) + RenderLine(lines[i])
  {
    seq(|lines|, i requires 0 <= i < |lines| => (if i == 0 then "" else indent) + RenderLine(lines[i]))
  }

  lemma SolidHasNoBreak(s: string)
    requires Solid(s)
    ensures '\n' !in s
  {
    forall i | 0 <= i < |s| ensures s[i] != '\n' {
      assert !IsGap(s[i]);
    }
  }

  lemma {:induction false} LineHasNoBreak(line: seq<Token>)
    requires AllSound(line)
    ensures '\n' !in RenderLine(line)
  {
    hide LineWidth, Columns, Solid;
    if line != [] {
      LineHasNoBreak(line[..|line| - 1]);
      assert Sound(line[|line| - 1]);
      SolidHasNoBreak(line[|line| - 1].text);
    }
  }

  lemma {:induction false} SplitRender(lines: seq<seq<Token>>, indent: string)
    requires lines != [] && AllSound(Flat(lines)) && '\n' !in indent
    ensures Split(Render(lines, indent), '\n') == ShownLines(lines, indent)
  {
    hide Split, RenderLine, Sound;
    var init, last := lines[..|lines| - 1], lines[|lines| - 1];
    SoundParts(Flat(init), last);
    LineHasNoBreak(last);
    if |lines| == 1 {
      NothingRendered(indent);
      assert "" + "" + RenderLine(last) == "" + RenderLine(last) == RenderLine(last);
      SplitFirst(RenderLine(last), '\n', "");
    } else {
      SplitRender(init, indent);
      SplitLast(Render(init, indent), indent + RenderLine(last));
      assert Render(init, indent) + ("\n" + indent) + RenderLine(last)
          == Render(init, indent) + "\n" + (indent + RenderLine(last));
      assert ShownLines(lines, indent) == ShownLines(init, indent) + [indent + RenderLine(last)];
    }
  }

  /**
   * Seen as a terminal shows it: the wrapped text has one line for each line of the layout, and, without
   * closing punctuation, each takes at most `width` columns besides its indent, unless it is a single token.
   */
  lemma ShownLinesFit(s: string, width: int, indent: string)
    requires Tokens(s) != [] && NoneCloses(Tokens(s)) && '\n' !in indent
    ensures var lines := Layout(Tokens(s), width);
            && Split(Wrapped(s, width, indent), '\n') == ShownLines(lines, indent)
            && forall i :: 0 <= i < |lines| ==> Columns(RenderLine(lines[i])) <= width || |lines[i]| == 1
  {
    hide Tokens, Render, RenderLine, LineWidth, Columns, Sound, Closes, Split, AllSound, NoneCloses, Flat;
    var toks := Tokens(s);
    var lines := Layout(toks, width);
    hide Layout;
    TokensKeepText(s);
    LayoutKeeps(toks, width);
    SplitRender(lines, indent);
    LayoutIsValid(toks, width);
    forall i | 0 <= i < |lines| ensures Columns(RenderLine(lines[i])) <= width || |lines[i]| == 1 {
      LineWithin(lines, i);
      SoundIn(lines[i], toks);
      WidthIsColumns(lines[i]);
    }
  }

  lemma SoundIn(line: seq<Token>, toks: seq<Token>)
    requires AllSound(toks) && forall t :: t in line ==> t in toks
    ensures AllSound(line)
  {
    hide Sound;
    forall i | 0 <= i < |line| ensures Sound(line[i]) {
      assert line[i] in toks;
    }
  }
}
