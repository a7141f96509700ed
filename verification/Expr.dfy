/** The scanner that finds which slots a playbook expression reads. */
module Expr {
  // --- one character at a time ------------------------------------------------

  datatype Literal = Outside | Inside(quote: char, escaped: bool)

  /** What the scanner knows between two characters. */
  datatype Scan = Scan(out: seq<string>, cur: string, afterDot: bool, lit: Literal)

  const START := Scan([], "", false, Outside)

  predicate IsQuote(c: char)
  {
    c == '\'' || c == '"' || c == '`'
  }

  predicate IsLetter(c: char)
  {
    'a' <= c <= 'z' || 'A' <= c <= 'Z' || c == '_'
  }

  predicate IsDigit(c: char)
  {
    '0' <= c <= '9'
  }

  /** The word being read is over; the field half of a selector is not reported. */
  function Flushed(s: Scan): (r: Scan)
  {
    if s.cur == "" then s
    else s.(out := if s.afterDot then s.out else s.out + [s.cur], cur := "")
  }

  function Next(s: Scan, c: char): (r: Scan)
  {
    match s.lit
    case Inside(q, true) => s.(lit := Inside(q, false))
    case Inside(q, false) =>
      if c == q then s.(lit := Outside)
      else if c == '\\' && q != '`' then s.(lit := Inside(q, true))
      else s
    case Outside =>
      if IsQuote(c) then Flushed(s).(afterDot := false, lit := Inside(c, false))
      else if c == '.' && s.cur != "" then Flushed(s).(afterDot := true)
      else if IsLetter(c) then s.(cur := s.cur + [c])
      else if IsDigit(c) then (if s.cur != "" then s.(cur := s.cur + [c]) else s)
      else Flushed(s).(afterDot := false)
  }

  function Scanned(s: Scan, text: string): (r: Scan)
    decreases |text|
  {
    if text == "" then s else Scanned(Next(s, text[0]), text[1..])
  }

  /** The identifiers an expression reads. */
  function SlotsRead(text: string): (out: seq<string>)
  {
    Flushed(Scanned(START, text)).out
  }

  function Found(s: Scan): (out: seq<string>)
  {
    Flushed(s).out
  }

  /** Skip to just past the closing quote; an unterminated literal takes the rest of the text. */
  method SkipLiteral(s: string, start: nat, quote: char, ghost before: Scan) returns (i: nat)
    requires start <= |s| && before.cur == "" && before.lit == Outside
    ensures start <= i <= |s| + 2
    ensures Found(Scanned(before.(lit := Inside(quote, false)), Rest(s, start))) == Found(Scanned(before, Rest(s, i)))
  {
    hide Scanned, Rest;
    i := start;
    ghost var inside := before.(lit := Inside(quote, false));
    while i < |s| && s[i] != quote
      invariant start <= i <= |s| + 1
      invariant Found(Scanned(inside, Rest(s, start))) == Found(Scanned(inside, Rest(s, i)))
    {
      SkipStep(s, i, inside, quote);
      if s[i] == '\\' && quote != '`' {
        i := i + 1;
      }
      i := i + 1;
    }
    CloseStep(s, i, inside, before);
    i := i + 1;
  }

  lemma CloseStep(s: string, i: nat, inside: Scan, before: Scan)
    requires before.cur == "" && before.lit == Outside && inside.lit.Inside? && inside == before.(lit := inside.lit)
    requires !inside.lit.escaped && (i < |s| ==> s[i] == inside.lit.quote)
    ensures Found(Scanned(inside, Rest(s, i))) == Found(Scanned(before, Rest(s, i + 1)))
  {
    RestStep(s, i);
    RestStep(s, i + 1);
  }

  lemma SkipStep(s: string, i: nat, inside: Scan, quote: char)
    requires i < |s| && s[i] != quote && inside.lit == Inside(quote, false) && inside.cur == ""
    ensures var next := if s[i] == '\\' && quote != '`' then i + 2 else i + 1;
            Found(Scanned(inside, Rest(s, i))) == Found(Scanned(inside, Rest(s, next)))
  {
    RestStep(s, i);
    RestStep(s, i + 1);
  }

  lemma RestStep(s: string, i: nat)
    ensures i < |s| ==> Rest(s, i) != "" && Rest(s, i)[0] == s[i] && Rest(s, i)[1..] == Rest(s, i + 1)
    ensures i >= |s| ==> Rest(s, i) == ""
  {
  }

  /** Identifiers. */
  method Identifiers(s: string) returns (out: seq<string>)
    ensures out == SlotsRead(s)
  {
    out := [];
    var cur := "";
    var prevWasDot := false;
    var i := 0;
    while i < |s|
      invariant 0 <= i <= |s| + 2
      invariant SlotsRead(s) == Found(Scanned(Scan(out, cur, prevWasDot, Outside), Rest(s, i)))
    {
      var c := s[i];
      RestStep(s, i);
      if IsQuote(c) {
        if cur != "" {
          if !prevWasDot {
            out := out + [cur];
          }
          cur := "";
        }
        prevWasDot := false;
        i := SkipLiteral(s, i + 1, c, Scan(out, "", false, Outside));
      } else {
        if c == '.' && cur != "" {
          if !prevWasDot {
            out := out + [cur];
          }
          cur := "";
          prevWasDot := true;
        } else if IsLetter(c) {
          cur := cur + [c];
        } else if IsDigit(c) {
          if cur != "" {
            cur := cur + [c];
          }
        } else {
          if cur != "" {
            if !prevWasDot {
              out := out + [cur];
            }
            cur := "";
          }
          prevWasDot := false;
        }
        i := i + 1;
      }
    }
    if cur != "" && !prevWasDot {
      out := out + [cur];
    }
  }

  function Rest(s: string, i: nat): (r: string)
  {
    if i <= |s| then s[i..] else ""
  }

  /** The names an expression may use that are not slots. */
  const EXPR_BUILTINS: set<string> := {
    "true", "false", "nil", "and", "or", "not", "in", "matches", "contains", "startsWith", "endsWith",
    "len", "all", "any", "none", "one", "filter", "map", "count", "sum", "avg", "min", "max",
    "abs", "int", "float", "string", "lower", "upper", "countMatching", "ratio", "pct", "isNaN", "finite"
  }

  predicate IsExprBuiltin(ident: string)
  {
    ident in EXPR_BUILTINS
  }

  // --- the grammar the scanner has to respect -----------------------------------

  /** The inside of a literal: escapes pair up unless the quote is a backquote. */
  predicate LiteralBody(quote: char, body: string)
  {
    || body == ""
    || (body[0] != quote && (body[0] != '\\' || quote == '`') && LiteralBody(quote, body[1..]))
    || (body[0] == '\\' && quote != '`' && |body| >= 2 && LiteralBody(quote, body[2..]))
  }

  predicate WordStart(c: char)
  {
    c == '_' || 'A' <= c <= 'Z' || 'a' <= c <= 'z'
  }

  predicate IsIdentifier(word: string)
  {
    word != "" && WordStart(word[0]) && IsWordTail(word)
  }

  predicate IsWordTail(word: string)
  {
    forall i :: 0 <= i < |word| ==> WordStart(word[i]) || '0' <= word[i] <= '9'
  }

  // --- facts about scanning ----------------------------------------------------

  lemma {:induction false} ScannedConcat(s: Scan, a: string, b: string)
    ensures Scanned(s, a + b) == Scanned(Scanned(s, a), b)
    decreases |a|
  {
    if a == "" {
      assert a + b == b;
    } else {
      ScannedConcat(Next(s, a[0]), a[1..], b);
      assert (a + b)[1..] == a[1..] + b;
    }
  }

  function Prefixed(pre: seq<string>, s: Scan): (r: Scan)
  {
    s.(out := pre + s.out)
  }

  lemma {:induction false} ScannedPrefixed(pre: seq<string>, s: Scan, text: string)
    ensures Scanned(Prefixed(pre, s), text) == Prefixed(pre, Scanned(s, text))
    decreases |text|
  {
    if text != "" {
      assert pre + (s.out + [s.cur]) == pre + s.out + [s.cur];
      assert Next(Prefixed(pre, s), text[0]) == Prefixed(pre, Next(s, text[0]));
      ScannedPrefixed(pre, Next(s, text[0]), text[1..]);
    }
  }

  lemma {:induction false} BodyStaysInside(s: Scan, quote: char, body: string)
    requires IsQuote(quote) && s.lit == Inside(quote, false) && LiteralBody(quote, body)
    ensures Scanned(s, body) == s
    decreases |body|
  {
    if body != "" {
      if body[0] == '\\' && quote != '`' {
        assert Scanned(s, body) == Scanned(Next(Next(s, body[0]), body[1]), body[1..][1..]);
        assert body[1..][1..] == body[2..];
        BodyStaysInside(s, quote, body[2..]);
      } else {
        BodyStaysInside(s, quote, body[1..]);
      }
    }
  }

  /** After a complete literal the scanner is where it was at the start, with what it had found. */
  lemma LiteralResets(s: Scan, quote: char, body: string)
    requires IsQuote(quote) && LiteralBody(quote, body) && s.lit == Outside
    ensures Scanned(s, [quote] + body + [quote]) == Prefixed(Flushed(s).out, START)
  {
    var inside := Next(s, quote);
    BodyStaysInside(inside, quote, body);
    ScannedConcat(s, [quote] + body, [quote]);
    ScannedConcat(s, [quote], body);
    assert [quote][1..] == "";
    assert Scanned(s, [quote]) == inside;
    assert Next(inside, quote) == Prefixed(Flushed(s).out, START);
  }

  /**
   * Text inside a literal is never read as a slot: whatever the literal holds, the expression reads
   * what its two sides read.
   */
  lemma LiteralsAreSkipped(pre: string, quote: char, body: string, post: string)
    requires IsQuote(quote) && LiteralBody(quote, body)
    requires Scanned(START, pre).lit == Outside
    ensures SlotsRead(pre + ([quote] + body + [quote]) + post) == SlotsRead(pre) + SlotsRead(post)
  {
    hide Next;
    var literal := [quote] + body + [quote];
    ScannedConcat(START, pre + literal, post);
    ScannedConcat(START, pre, literal);
    LiteralResets(Scanned(START, pre), quote, body);
    ScannedPrefixed(SlotsRead(pre), START, post);
    FlushedPrefixed(SlotsRead(pre), Scanned(START, post));
  }

  lemma FlushedPrefixed(pre: seq<string>, s: Scan)
    ensures Flushed(Prefixed(pre, s)).out == pre + Flushed(s).out
  {
    assert pre + (s.out + [s.cur]) == pre + s.out + [s.cur];
  }

  /** Every name reported is shaped like an identifier. */
  lemma NamesAreIdentifiers(text: string)
    ensures forall name :: name in SlotsRead(text) ==> IsIdentifier(name)
  {
    ShapeIsKept(START, text);
  }

  ghost predicate WellShaped(s: Scan)
  {
    && (forall name :: name in s.out ==> IsIdentifier(name))
    && (s.cur != "" ==> IsIdentifier(s.cur))
  }

  lemma {:induction false} ShapeIsKept(s: Scan, text: string)
    requires WellShaped(s)
    ensures WellShaped(Scanned(s, text))
    decreases |text|
  {
    if text != "" {
      ShapeIsKept(Next(s, text[0]), text[1..]);
    }
  }

  lemma {:induction false} WordAccumulates(s: Scan, word: string)
    requires s.lit == Outside && IsWordTail(word) && (s.cur != "" || word == "" || WordStart(word[0]))
    ensures Scanned(s, word) == s.(cur := s.cur + word)
    decreases |word|
  {
    if word == "" {
      assert s.cur + word == s.cur;
    } else {
      assert IsLetter(word[0]) || IsDigit(word[0]);
      assert !IsQuote(word[0]);
      WordAccumulates(Next(s, word[0]), word[1..]);
      assert s.cur + [word[0]] + word[1..] == s.cur + word;
    }
  }

  function Selector(path: seq<string>): (s: string)
    requires path != []
  {
    if |path| == 1 then path[0] else path[0] + "." + Selector(path[1..])
  }

  lemma {:induction false} PathIsScanned(s: Scan, path: seq<string>)
    requires path != [] && forall i :: 0 <= i < |path| ==> IsIdentifier(path[i])
    requires s.lit == Outside && s.cur == ""
    ensures Flushed(Scanned(s, Selector(path))).out == s.out + (if s.afterDot then [] else [path[0]])
    decreases |path|
  {
    WordAccumulates(s, path[0]);
    assert s.cur + path[0] == path[0];
    if |path| > 1 {
      var tail := "." + Selector(path[1..]);
      assert Selector(path) == path[0] + tail;
      ScannedConcat(s, path[0], tail);
      assert tail[0] == '.' && tail[1..] == Selector(path[1..]);
      PathIsScanned(Next(Scanned(s, path[0]), '.'), path[1..]);
    }
  }

  /** A dotted path reads the slot it starts with and none of its fields. */
  lemma SelectorReadsItsHead(path: seq<string>)
    requires path != [] && forall i :: 0 <= i < |path| ==> IsIdentifier(path[i])
    ensures SlotsRead(Selector(path)) == [path[0]]
  {
    PathIsScanned(START, path);
  }

  /** A character that is no part of a word, a path or a literal: an operator, a bracket, white space. */
  predicate Separates(c: char)
  {
    !WordStart(c) && !('0' <= c <= '9') && c !in {'.', '\'', '"', '`'}
  }

  /** What stands between two parts of an expression separates them: together they read what each reads. */
  lemma PartsAreReadApart(pre: string, sep: char, post: string)
    requires Separates(sep) && Scanned(START, pre).lit == Outside
    ensures SlotsRead(pre + [sep] + post) == SlotsRead(pre) + SlotsRead(post)
  {
    var s := Scanned(START, pre);
    ScannedConcat(START, pre + [sep], post);
    ScannedConcat(START, pre, [sep]);
    assert [sep][1..] == "";
    assert Scanned(s, [sep]) == Next(s, sep) == Prefixed(Flushed(s).out, START);
    hide Next;
    ScannedPrefixed(SlotsRead(pre), START, post);
    FlushedPrefixed(SlotsRead(pre), Scanned(START, post));
  }

  lemma BracketAndDot(s: Scan)
    requires s.lit == Outside && s.cur != "" && !s.afterDot
    ensures Scanned(s, ").") == Scan(s.out + [s.cur], "", false, Outside)
  {
    assert ")."[0] == ')' && ")."[1..] == "." && "."[0] == '.' && "."[1..] == "";
    var between := Next(s, ')');
    assert Scanned(s, ").") == Scanned(between, ".");
    assert Scanned(between, ".") == Scanned(Next(between, '.'), "");
  }

  /** Only a dot right after a name hides a field: after a closing bracket the field is reported. */
  lemma FieldAfterBracketIsReported(a: string, b: string)
    requires IsIdentifier(a) && IsIdentifier(b)
    ensures SlotsRead(a + ")." + b) == [a, b]
  {
    WordAccumulates(START, a);
    assert START.cur + a == a;
    assert a + ")." + b == a + (")." + b);
    ScannedConcat(START, a, ")." + b);
    ScannedConcat(Scanned(START, a), ").", b);
    BracketAndDot(Scanned(START, a));
    assert START.out + [a] == [a];
    var between := Scan([a], "", false, Outside);
    WordAccumulates(between, b);
    assert between.cur + b == b;
    hide Scanned, Next;
  }
}
