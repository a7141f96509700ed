/** The string functions of Go's standard library that the modelled code calls. */
module GoStrings {
  import opened Basics

  predicate IsSpace(c: char)
  {
    var n := c as int;
    || 9 <= n <= 13 || n == 32 || n == 0x85 || n == 0xA0 || n == 0x1680
    || 0x2000 <= n <= 0x200A || n == 0x2028 || n == 0x2029 || n == 0x202F || n == 0x205F || n == 0x3000
  }

  function TrimLeft(s: string): (r: string)
  {
    if s != "" && IsSpace(s[0]) then TrimLeft(s[1..]) else s
  }

  function TrimRight(s: string): (r: string)
  {
    if s != "" && IsSpace(s[|s| - 1]) then TrimRight(s[..|s| - 1]) else s
  }

  function TrimSpace(s: string): (r: string)
  {
    TrimRight(TrimLeft(s))
  }

  lemma TrimmedAlready(s: string)
    requires s != "" && !IsSpace(s[0]) && !IsSpace(s[|s| - 1])
    ensures TrimSpace(s) == s
  {
  }

  predicate Blank(s: string)
  {
    TrimSpace(s) == ""
  }

  function TrimPrefix(s: string, prefix: string): (r: string)
  {
    if prefix <= s then s[|prefix|..] else s
  }

  /** strings.Fields: the maximal runs of non-space characters. */
  function Fields(s: string): (out: seq<string>)
  {
    FieldsFrom(s, "")
  }

  function FieldsFrom(s: string, cur: string): (out: seq<string>)
  {
    var done := if cur == "" then [] else [cur];
    if s == "" then done
    else if IsSpace(s[0]) then done + FieldsFrom(s[1..], "")
    else FieldsFrom(s[1..], cur + [s[0]])
  }

  /** strings.Split on a one-character separator. */
  function Split(s: string, sep: char): (parts: seq<string>)
    ensures |parts| > 0
  {
    if s == "" then [""]
    else
      var rest := Split(s[1..], sep);
      if s[0] == sep then [""] + rest
      else [[s[0]] + rest[0]] + rest[1..]
  }

  /** strings.IndexAny for the characters of `set`; |s| when there is none. */
  function IndexAny(s: string, set': string): (i: nat)
    ensures i <= |s|
    ensures forall k :: 0 <= k < i ==> s[k] !in set'
    ensures i < |s| ==> s[i] in set'
  {
    if s == "" || s[0] in set' then 0 else 1 + IndexAny(s[1..], set')
  }

  predicate IsDigit(c: char)
  {
    48 <= c as int <= 57
  }

  const INT_MAX: int := 0x7FFF_FFFF_FFFF_FFFF
  const INT_MIN: int := -0x8000_0000_0000_0000

  /** The value of a string of decimal digits. */
  function Decimal(s: string): (n: nat)
    requires forall i :: 0 <= i < |s| ==> IsDigit(s[i])
  {
    if s == "" then 0
    else
      assert IsDigit(s[|s| - 1]);
      10 * Decimal(s[..|s| - 1]) + (s[|s| - 1] as int - 48)
  }

  predicate AllDigits(s: string)
  {
    forall i :: 0 <= i < |s| ==> IsDigit(s[i])
  }

  /** strconv.Atoi: an optional sign, at least one digit, a 64-bit result. */
  function Atoi(s: string): (r: Option<int>)
    ensures r.Some? ==> INT_MIN <= r.value <= INT_MAX
  {
    var signed := s != "" && (s[0] == '+' || s[0] == '-');
    var digits := if signed then s[1..] else s;
    if digits == "" || !AllDigits(digits) then None
    else
      var d: int := Decimal(digits);
      var n := if signed && s[0] == '-' then -d else d;
      if INT_MIN <= n <= INT_MAX then Some(n) else None
  }

  function DigitChar(d: nat): (c: char)
    requires d < 10
    ensures IsDigit(c) && c as int == d + 48
  {
    (d + 48) as char
  }

  /** The decimal digits of a natural number, as the stores' own itoa writes them. */
  function Itoa(n: nat): (s: string)
    ensures s != "" && forall i :: 0 <= i < |s| ==> IsDigit(s[i])
    ensures Decimal(s) == n
  {
    if n < 10 then [DigitChar(n)]
    else
      var s := Itoa(n / 10) + [DigitChar(n % 10)];
      assert s[..|s| - 1] == Itoa(n / 10);
      s
  }

  /** strings.ReplaceAll for a non-empty `old'`: leftmost occurrences, none overlapping. */
  function ReplaceAll(s: string, old': string, new': string): (r: string)
    requires old' != ""
    decreases |s|
  {
    if s == "" then ""
    else if old' <= s then new' + ReplaceAll(s[|old'|..], old', new')
    else [s[0]] + ReplaceAll(s[1..], old', new')
  }

  /** Splitting takes one separator-free piece at a time. */
  lemma {:induction false} SplitFirst(piece: string, sep: char, rest: string)
    requires sep !in piece
    ensures Split(piece + [sep] + rest, sep) == [piece] + Split(rest, sep)
    ensures Split(piece, sep) == [piece]
  {
    if piece == "" {
      assert piece + [sep] + rest == [sep] + rest;
    } else {
      SplitFirst(piece[1..], sep, rest);
      assert (piece + [sep] + rest)[1..] == piece[1..] + [sep] + rest;
      assert piece[0] in piece && [piece[0]] + piece[1..] == piece;
    }
  }

  ghost predicate NoSpace(s: string)
  {
    forall i :: 0 <= i < |s| ==> !IsSpace(s[i])
  }

  lemma {:induction false} WordFieldsFrom(s: string, cur: string)
    requires NoSpace(s)
    requires cur + s != ""
    ensures FieldsFrom(s, cur) == [cur + s]
  {
    if s == "" {
      assert cur + s == cur;
    } else {
      WordFieldsFrom(s[1..], cur + [s[0]]);
      assert cur + [s[0]] + s[1..] == cur + s;
    }
  }

  /** A text without white space is its own only field. */
  lemma WordFields(s: string)
    requires s != "" && NoSpace(s)
    ensures TrimSpace(s) == s && Fields(s) == [s]
  {
    WordFieldsFrom(s, "");
    assert "" + s == s;
  }

  lemma NoSpaceConcat(s: string, t: string)
    requires NoSpace(s) && NoSpace(t)
    ensures NoSpace(s + t)
  {
  }

  // --- trimming and splitting of texts put together ------------------------------------------

  lemma {:induction false} TrimLeftOf(x: string, y: string)
    requires y != "" && !IsSpace(y[0])
    ensures TrimLeft(x + y) == TrimLeft(x) + y
  {
    if x == "" {
      assert x + y == y;
    } else {
      assert (x + y)[1..] == x[1..] + y;
      TrimLeftOf(x[1..], y);
    }
  }

  lemma {:induction false} TrimRightOf(x: string, y: string)
    requires x != "" && !IsSpace(x[|x| - 1])
    ensures TrimRight(x + y) == x + TrimRight(y)
    decreases |y|
  {
    if y == "" {
      assert x + y == x;
    } else {
      assert (x + y)[..|x + y| - 1] == x + y[..|y| - 1];
      TrimRightOf(x, y[..|y| - 1]);
    }
  }

  lemma {:induction false} TrimLeftKeeps(x: string)
    ensures exists n :: 0 <= n <= |x| && TrimLeft(x) == x[n..]
  {
    if x != "" && IsSpace(x[0]) {
      TrimLeftKeeps(x[1..]);
      var n :| 0 <= n <= |x| - 1 && TrimLeft(x[1..]) == x[1..][n..];
      assert x[1..][n..] == x[n + 1..];
    } else {
      assert x[0..] == x;
    }
  }

  /** Trimming a text around something that begins and ends with other characters than white space. */
  lemma TrimAround(x: string, core: string, y: string)
    requires core != "" && !IsSpace(core[0]) && !IsSpace(core[|core| - 1])
    ensures TrimSpace(x + core + y) == TrimLeft(x) + core + TrimRight(y)
  {
    assert x + core + y == x + (core + y);
    TrimLeftOf(x, core + y);
    assert TrimLeft(x) + (core + y) == (TrimLeft(x) + core) + y;
    TrimRightOf(TrimLeft(x) + core, y);
  }

  ghost predicate AllSpace(s: string)
  {
    forall i :: 0 <= i < |s| ==> IsSpace(s[i])
  }

  lemma {:induction false} SpaceTrims(s: string)
    requires AllSpace(s)
    ensures TrimLeft(s) == "" && TrimRight(s) == ""
  {
    hide IsSpace;
    if s != "" {
      SpaceTrims(s[1..]);
      SpaceTrims(s[..|s| - 1]);
    }
  }

  lemma {:induction false} FieldsFromBoth(a: string, sep: char, b: string, cur: string)
    requires IsSpace(sep)
    ensures FieldsFrom(a + [sep] + b, cur) == FieldsFrom(a, cur) + FieldsFrom(b, "")
  {
    hide IsSpace;
    var s := a + [sep] + b;
    if a == "" {
      assert s[1..] == b;
    } else {
      assert s[1..] == a[1..] + [sep] + b && s[0] == a[0];
      FieldsFromBoth(a[1..], sep, b, if IsSpace(a[0]) then "" else cur + [a[0]]);
    }
  }

  lemma {:induction false} FieldsTrimLeft(s: string)
    ensures Fields(TrimLeft(s)) == Fields(s)
  {
    hide IsSpace;
    if s != "" && IsSpace(s[0]) {
      FieldsTrimLeft(s[1..]);
    }
  }

  lemma {:induction false} FieldsTrimRight(s: string)
    ensures Fields(TrimRight(s)) == Fields(s)
  {
    hide IsSpace;
    if s != "" && IsSpace(s[|s| - 1]) {
      var init, last := s[..|s| - 1], s[|s| - 1];
      FieldsTrimRight(init);
      FieldsFromBoth(init, last, "", "");
      assert s == init + [last] + "";
    }
  }

  /** White space at the ends is no field, and white space in between separates the fields on both sides. */
  lemma FieldsBoth(a: string, b: string)
    ensures Fields(TrimSpace(a)) == Fields(a)
    ensures Fields(a + " " + b) == Fields(a) + Fields(b)
  {
    FieldsTrimLeft(a);
    FieldsTrimRight(TrimLeft(a));
    FieldsFromBoth(a, ' ', b, "");
  }
}
