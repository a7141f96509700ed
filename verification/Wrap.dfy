/** Re-flowing text to a number of terminal columns. */
module Wrap {
  // --- characters ------------------------------------------------------------------------------

  predicate Between(c: char, lo: int, hi: int)
  {
    lo <= c as int <= hi
  }

  /** The characters that take two columns. */
  predicate IsWide(c: char)
  {
    || Between(c, 0x1100, 0x115F) || Between(c, 0x2E80, 0x303E) || Between(c, 0x3041, 0x33FF)
    || Between(c, 0x3400, 0x4DBF) || Between(c, 0x4E00, 0x9FFF) || Between(c, 0xA000, 0xA4CF)
    || Between(c, 0xAC00, 0xD7A3) || Between(c, 0xF900, 0xFAFF) || Between(c, 0xFE30, 0xFE6F)
    || Between(c, 0xFF00, 0xFF60) || Between(c, 0xFFE0, 0xFFE6) || Between(c, 0x20000, 0x3FFFD)
  }

  predicate IsGap(c: char)
  {
    c in {' ', '\t', '\n', '\r'}
  }

  const CLOSING := {
    0x3002, 0xFF0C, 0x3001, 0xFF1B, 0xFF1A, 0xFF1F, 0xFF01, 0xFF09, 0x3011, 0x300B,
    0x300D, 0x300F, 0x3009, 0x3015, 0xFF5D, 0x201D, 0x2019, 0xB7, 0x2026, 0x2014 }

  function Columns(s: string): (n: nat)
  {
    if s == "" then 0 else Columns(s[..|s| - 1]) + (if IsWide(s[|s| - 1]) then 2 else 1)
  }

  /** The text without its white space. */
  function Squeezed(s: string): (r: string)
  {
    if s == "" then "" else Squeezed(s[..|s| - 1]) + (if IsGap(s[|s| - 1]) then "" else [s[|s| - 1]])
  }

  // --- tokens ---------------------------------------------------------------------------------------

  /** A run of narrow characters, or a single wide one; `spaced`: white space came before it. */
  datatype Token = Token(text: string, width: nat, spaced: bool)

  /** noBreakBefore: closing punctuation by itself. */
  predicate Closes(t: Token)
  {
    |t.text| == 1 && t.text[0] as int in CLOSING
  }

  datatype Reader = Reader(out: seq<Token>, cur: string, curW: nat, pending: bool)

  function Flushed(r: Reader): (out: Reader)
  {
    if r.cur == "" then r else Reader(r.out + [Token(r.cur, r.curW, r.pending)], "", 0, false)
  }

  function Fed(r: Reader, c: char): (out: Reader)
  {
    if IsGap(c) then Flushed(r).(pending := true)
    else if IsWide(c) then
      var f := Flushed(r);
      f.(out := f.out + [Token([c], 2, f.pending)], pending := false)
    else r.(cur := r.cur + [c], curW := r.curW + 1)
  }

  function ReadOver(s: string): (r: Reader)
  {
    if s == "" then Reader([], "", 0, false) else Fed(ReadOver(s[..|s| - 1]), s[|s| - 1])
  }

  function Tokens(s: string): (out: seq<Token>)
  {
    Flushed(ReadOver(s)).out
  }

  method Tokenize(s: string) returns (out: seq<Token>)
    ensures out == Tokens(s)
  {
    out := [];
    var cur, curW, pending := "", 0, false;
    for i := 0 to |s|
      invariant Reader(out, cur, curW, pending) == ReadOver(s[..i])
    {
      assert s[..i + 1][..i] == s[..i];
      var c := s[i];
      if IsGap(c) {
        if cur != "" {
          out := out + [Token(cur, curW, pending)];
          cur, curW, pending := "", 0, false;
        }
        pending := true;
      } else if IsWide(c) {
        if cur != "" {
          out := out + [Token(cur, curW, pending)];
          cur, curW, pending := "", 0, false;
        }
        out := out + [Token([c], 2, pending)];
        pending := false;
      } else {
        cur := cur + [c];
        curW := curW + 1;
      }
    }
    assert s[..|s|] == s;
    if cur != "" {
      out := out + [Token(cur, curW, pending)];
    }
  }

  // --- lines ------------------------------------------------------------------------------------------

  /** The columns a token takes for the space before it. */
  function Gap(before: nat, t: Token): (n: nat)
  {
    if t.spaced && before > 0 && !Closes(t) then 1 else 0
  }

  function LineWidth(line: seq<Token>): (n: nat)
  {
    if line == [] then 0
    else
      var before := LineWidth(line[..|line| - 1]);
      before + Gap(before, line[|line| - 1]) + line[|line| - 1].width
  }

  /** The greedy choice: stay on the line if it fits, or if the token may not begin one. */
  predicate Stays(lineLen: nat, t: Token, width: int)
  {
    Closes(t) || lineLen == 0 || lineLen + Gap(lineLen, t) + t.width <= width
  }

  function Place(lines: seq<seq<Token>>, t: Token, width: int): (r: seq<seq<Token>>)
    ensures r != []
  {
    if lines == [] then [[t]]
    else
      var last := lines[|lines| - 1];
      if Stays(LineWidth(last), t, width) then lines[..|lines| - 1] + [last + [t]] else lines + [[t]]
  }

  function Layout(toks: seq<Token>, width: int): (lines: seq<seq<Token>>)
    ensures toks != [] ==> lines != []
  {
    if toks == [] then [] else Place(Layout(toks[..|toks| - 1], width), toks[|toks| - 1], width)
  }

  function RenderLine(line: seq<Token>): (s: string)
  {
    if line == [] then ""
    else
      var init, t := line[..|line| - 1], line[|line| - 1];
      RenderLine(init) + (if Gap(LineWidth(init), t) == 1 then " " else "") + t.text
  }

  function Render(lines: seq<seq<Token>>, indent: string): (s: string)
  {
    if lines == [] then ""
    else
      Render(lines[..|lines| - 1], indent) + (if |lines| == 1 then "" else "\n" + indent)
      + RenderLine(lines[|lines| - 1])
  }

  function Wrapped(s: string, width: int, indent: string): (r: string)
  {
    Render(Layout(Tokens(s), width), indent)
  }

  /** The width of the line being written. */
  function LastWidth(lines: seq<seq<Token>>): (n: nat)
  {
    if lines == [] then 0 else LineWidth(lines[|lines| - 1])
  }

  lemma WidthSnoc(line: seq<Token>, t: Token)
    ensures LineWidth(line + [t]) == LineWidth(line) + Gap(LineWidth(line), t) + t.width
    ensures RenderLine(line + [t]) == RenderLine(line) + (if Gap(LineWidth(line), t) == 1 then " " else "") + t.text
  {
    assert (line + [t])[..|line|] == line;
  }

  lemma NothingRendered(indent: string)
    ensures LineWidth([]) == 0 && RenderLine([]) == "" && Render([], indent) == "" && LastWidth([]) == 0
  {
  }

  lemma RenderSnoc(lines: seq<seq<Token>>, line: seq<Token>, indent: string)
    ensures Render(lines + [line], indent)
         == Render(lines, indent) + (if lines == [] then "" else "\n" + indent) + RenderLine(line)
    ensures LastWidth(lines + [line]) == LineWidth(line)
  {
    hide LineWidth, RenderLine;
    assert (lines + [line])[..|lines|] == lines;
  }

  /** What writing a token adds to the text, and to the line being written. */
  lemma PlaceRenders(lines: seq<seq<Token>>, t: Token, width: int, indent: string)
    ensures var was, now := LastWidth(lines), LastWidth(Place(lines, t, width));
            var text := Render(Place(lines, t, width), indent);
            if Stays(was, t, width) then
              && text == Render(lines, indent) + (if Gap(was, t) == 1 then " " else "") + t.text
              && now == was + Gap(was, t) + t.width
            else
              && text == Render(lines, indent) + ("\n" + indent) + t.text
              && now == t.width
  {
    hide LineWidth, RenderLine, Closes, Render;
    NothingRendered(indent);
    WidthSnoc([], t);
    assert [] + [t] == [t];
    if lines == [] {
      RenderSnoc([], [t], indent);
      assert [] + [[t]] == [[t]];
    } else {
      var init, last := lines[..|lines| - 1], lines[|lines| - 1];
      if Stays(LineWidth(last), t, width) {
        WidthSnoc(last, t);
        RenderSnoc(init, last, indent);
        RenderSnoc(init, last + [t], indent);
        assert init + [last] == lines;
      } else {
        RenderSnoc(lines, [t], indent);
      }
    }
  }

  method WrapText(s: string, width: int, indent: string) returns (r: string)
    ensures r == Wrapped(s, width, indent)
  {
    hide Render, LineWidth, LastWidth, Place, Closes;
    var toks := Tokenize(s);
    NothingRendered(indent);
    if |toks| == 0 {
      return "";
    }
    r := "";
    var lineLen := 0;
    for i := 0 to |toks|
      invariant r == Render(Layout(toks[..i], width), indent)
      invariant lineLen == LastWidth(Layout(toks[..i], width))
    {
      assert toks[..i + 1][..i] == toks[..i];
      var tk := toks[i];
      PlaceRenders(Layout(toks[..i], width), tk, width, indent);
      var gap := 0;
      if tk.spaced && lineLen > 0 {
        gap := 1;
      }
      if Closes(tk) {
        r := r + tk.text;
        lineLen := lineLen + tk.width;
        continue;
      }
      if lineLen > 0 && lineLen + gap + tk.width > width {
        r := r + ("\n" + indent);
        lineLen := 0;
        gap := 0;
      } else if gap == 1 {
        r := r + " ";
        lineLen := lineLen + 1;
      }
      r := r + tk.text;
      lineLen := lineLen + tk.width;
    }
    assert toks[..|toks|] == toks;
  }
}
