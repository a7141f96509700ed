/** What the written forms mean: how a version may be spelled, and what each operator of a constraint asks for. */
module RangeMeaning {
  import opened Basics
  import opened GoStrings
  import opened Versions
  import opened VersionRanges

  // --- versions ---------------------------------------------------------------------------

  /** One number of a version: decimal digits, within 64 bits. */
  predicate Number(s: string)
  {
    s != "" && AllDigits(s) && Decimal(s) <= INT_MAX
  }

  predicate Numbers(parts: seq<string>)
  {
    parts != [] && forall i :: 0 <= i < |parts| ==> Number(parts[i])
  }

  function Values(parts: seq<string>): (v: Version)
    requires Numbers(parts)
    ensures |v| == |parts| && forall i :: 0 <= i < |v| ==> v[i] == Decimal(parts[i])
  {
    seq(|parts|, i requires 0 <= i < |parts| => Decimal(parts[i]))
  }

  function Dotted(parts: seq<string>): (s: string)
    requires parts != []
  {
    if |parts| == 1 then parts[0] else parts[0] + "." + Dotted(parts[1..])
  }

  lemma {:induction false} DottedChars(parts: seq<string>)
    requires Numbers(parts)
    ensures parts != []
    ensures var s := Dotted(parts);
            s != "" && IsDigit(s[0]) && IsDigit(s[|s| - 1]) && forall i :: 0 <= i < |s| ==> IsDigit(s[i]) || s[i] == '.'
  {
    hide IsDigit, Decimal;
    assert Number(parts[0]);
    if |parts| > 1 {
      DottedChars(parts[1..]);
    }
  }

  lemma {:induction false} DottedSplits(parts: seq<string>)
    requires Numbers(parts)
    ensures Split(Dotted(parts), '.') == parts
  {
    assert Number(parts[0]) && '.' !in parts[0];
    if |parts| == 1 {
      SplitFirst(parts[0], '.', "");
    } else {
      DottedSplits(parts[1..]);
      SplitFirst(parts[0], '.', Dotted(parts[1..]));
    }
  }

  lemma NumberReads(s: string)
    requires Number(s)
    ensures Atoi(s) == Some(Decimal(s) as int)
  {
    assert IsDigit(s[0]);
  }

  /** A suffix from "-" or "+" on is cut off, whatever it says. */
  lemma SuffixIsCut(s: string, suffix: string)
    requires s != "" && forall i :: 0 <= i < |s| ==> IsDigit(s[i]) || s[i] == '.'
    requires suffix == "" || suffix[0] in "-+"
    ensures WithoutSuffix(s + suffix) == s
  {
    var t := s + suffix;
    var i := IndexAny(t, "-+");
    assert forall k :: 0 <= k < |s| ==> t[k] == s[k] && t[k] !in "-+";
    if suffix != "" {
      assert t[|s|] == suffix[0];
      assert i == |s|;
    } else {
      assert t == s && i == |s|;
    }
  }

  lemma {:induction false} TrimRightFirst(s: string)
    requires s == "" || !IsSpace(s[0])
    ensures TrimRight(s) == "" <==> s == ""
    ensures s != "" ==> TrimRight(s)[0] == s[0]
  {
    if s != "" && IsSpace(s[|s| - 1]) {
      TrimRightFirst(s[..|s| - 1]);
    }
  }

  /** The suffix and what follows it, after trimming: still a suffix, or nothing. */
  lemma TrimmedSuffix(suffix: string, right: string)
    requires suffix == "" || suffix[0] in "-+"
    requires AllSpace(right)
    ensures var t := TrimRight(suffix + right); t == "" || t[0] in "-+"
  {
    if suffix == "" {
      SpaceTrims(right);
      assert suffix + right == right;
    } else {
      var t := suffix + right;
      assert t[0] == suffix[0];
      TrimRightFirst(t);
    }
  }

  lemma DigitIsNoSpace(c: char)
    requires IsDigit(c) || c == 'v'
    ensures !IsSpace(c)
  {
  }

  /** Trimming before the letter is taken off. */
  lemma OuterTrim(left: string, letter: string, mid: string, parts: seq<string>, rest: string)
    requires Numbers(parts) && AllSpace(left) && AllSpace(mid) && (letter == "v" || (letter == "" && mid == ""))
    ensures TrimSpace(left + (letter + mid + Dotted(parts)) + rest) == letter + mid + Dotted(parts) + TrimRight(rest)
  {
    hide IsSpace, IsDigit, TrimLeft, TrimRight, TrimSpace, Number, Dotted;
    DottedChars(parts);
    var d := Dotted(parts);
    DigitIsNoSpace(d[0]);
    DigitIsNoSpace(d[|d| - 1]);
    DigitIsNoSpace('v');
    var core := letter + mid + d;
    assert core[|core| - 1] == d[|d| - 1] && core[0] == (if letter == "v" then 'v' else d[0]);
    TrimAround(left, core, rest);
    SpaceTrims(left);
    assert "" + core == core;
  }

  /** And after. */
  lemma InnerTrim(letter: string, mid: string, parts: seq<string>, tail: string)
    requires Numbers(parts) && AllSpace(mid) && (letter == "v" || (letter == "" && mid == "")) && TrimRight(tail) == tail
    ensures TrimSpace(TrimPrefix(letter + mid + Dotted(parts) + tail, "v")) == Dotted(parts) + tail
  {
    hide IsSpace, TrimLeft, TrimRight, TrimSpace, Numbers, Dotted;
    DottedChars(parts);
    var d := Dotted(parts);
    DigitIsNoSpace(d[0]);
    DigitIsNoSpace(d[|d| - 1]);
    var t := letter + mid + d + tail;
    assert t[0] == (if letter == "v" then 'v' else d[0]);
    assert TrimPrefix(t, "v") == mid + d + tail;
    TrimAround(mid, d, tail);
    SpaceTrims(mid);
    assert "" + d == d;
  }

  lemma {:induction false} TrimRightTwice(s: string)
    ensures TrimRight(TrimRight(s)) == TrimRight(s)
  {
    if s != "" && IsSpace(s[|s| - 1]) {
      TrimRightTwice(s[..|s| - 1]);
    }
  }

  /**
   * The usual spellings, all of them: dotted decimal numbers, with or without a leading "v", with or without a
   * suffix from "-" or "+" on, with white space around any of it, read as the vector of their values.
   */
  lemma SpelledVersion(left: string, letter: string, mid: string, parts: seq<string>, suffix: string, right: string)
    requires Numbers(parts) && AllSpace(left) && AllSpace(mid) && AllSpace(right)
    requires letter == "v" || (letter == "" && mid == "")
    requires suffix == "" || suffix[0] in "-+"
    ensures ParsedVersion(left + (letter + mid + Dotted(parts)) + (suffix + right)) == Ok(Values(parts))
  {
    hide IsSpace, IsDigit, TrimLeft, TrimRight, TrimSpace, TrimPrefix, Dotted, WithoutSuffix, Split, Atoi;
    var tail := TrimRight(suffix + right);
    OuterTrim(left, letter, mid, parts, suffix + right);
    TrimRightTwice(suffix + right);
    InnerTrim(letter, mid, parts, tail);
    TrimmedSuffix(suffix, right);
    DottedChars(parts);
    SuffixIsCut(Dotted(parts), tail);
    DottedSplits(parts);
    forall i | 0 <= i < |parts| ensures Atoi(parts[i]) == Some(Decimal(parts[i]) as int) {
      NumberReads(parts[i]);
    }
    assert ParsedComponents(parts).value == Values(parts);
  }

  // --- one constraint ------------------------------------------------------------------------

  const OPERATORS: set<string> := {">=", "<=", "!=", "==", ">", "<", "=", ""}

  /** What an operator asks of a version `w`, in terms of the order's meaning. */
  ghost predicate Relates(op: string, w: Version, v: Version)
    requires op in OPERATORS
  {
    if op == ">=" then Below(v, w) || Same(w, v)
    else if op == "<=" then Below(w, v) || Same(w, v)
    else if op == ">" then Below(v, w)
    else if op == "<" then Below(w, v)
    else if op == "!=" then !Same(w, v)
    else Same(w, v)
  }

  lemma NotANumber(s: string)
    requires s != "" && !IsDigit(s[0]) && s[0] != '+' && s[0] != '-'
    ensures Atoi(s).None?
  {
    assert !AllDigits(s);
  }

  /** No version is spelled with an operator in front. */
  lemma VersionStart(num: string)
    requires NoSpace(num) && ParsedVersion(num).Ok?
    ensures num != "" && num[0] !in "<>=!"
  {
    if num != "" && num[0] in "<>=!" {
      WordFields(num);
      assert TrimPrefix(num, "v") == num;
      var w := WithoutSuffix(num);
      assert w[0] == num[0] by { assert num[0] !in "-+"; }
      var parts := Split(w, '.');
      assert parts[0] != "" && parts[0][0] == w[0];
      NotANumber(parts[0]);
      assert false;
    }
  }

  lemma OperatorSplits(op: string, num: string)
    requires op in OPERATORS && num != "" && num[0] !in "<>=!"
    ensures SplitOp(op + num).1 == num
    ensures forall c: Check, w: Version :: c == Check(SplitOp(op + num).0, c.version) ==>
              (Holds(c, w) <==> Relates(op, w, c.version))
  {
    var t := op + num;
    assert t[|op|..] == num && t[|op|] == num[0];
    assert |op| > 0 ==> t[0] == op[0];
    assert |op| > 1 ==> t[1] == op[1];
    forall c: Check, w: Version | c == Check(SplitOp(t).0, c.version) ensures Holds(c, w) <==> Relates(op, w, c.version) {
      OrderMeaning(w, c.version);
    }
  }

  /**
   * What a constraint of one word means, for all seven operators and for none, every spelling of a version in it
   * and every readable version it is applied to.
   */
  lemma ConstraintMeaning(op: string, num: string, s: string)
    requires op in OPERATORS && NoSpace(num) && ParsedVersion(num).Ok? && Parseable(s)
    ensures ParsedRange(op + num).Ok?
    ensures AppliesTo(op + num, s) <==> Relates(op, ParsedVersion(s).value, ParsedVersion(num).value)
  {
    hide ParsedVersion, ParsedRange, Holds, Relates, SplitOp, Representable, AppliesTo;
    VersionStart(num);
    OperatorSplits(op, num);
    OperatorHasNoSpace(op);
    NoSpaceConcat(op, num);
    OneWordRange(op + num);
    OneCheckCovers(op + num, ParsedCheck(op + num).value, s);
  }

  lemma OperatorHasNoSpace(op: string)
    requires op in OPERATORS
    ensures NoSpace(op)
  {
  }

  // --- several constraints ----------------------------------------------------------------------

  lemma RangeChecks(raw: string)
    ensures ParsedRange(raw).Ok? <==> forall i :: 0 <= i < |Fields(raw)| ==> ParsedCheck(Fields(raw)[i]).Ok?
    ensures ParsedRange(raw).Ok? ==>
              var checks := ParsedRange(raw).value;
              |checks| == |Fields(raw)| && forall i :: 0 <= i < |checks| ==> checks[i] == ParsedCheck(Fields(raw)[i]).value
  {
    hide ParsedCheck, TrimSpace;
    FieldsBoth(raw, "");
    if TrimSpace(raw) == "" {
      assert Fields("") == [];
    }
  }

  /** Constraints side by side mean both: together they parse if each does, and apply where each does. */
  lemma ConstraintsCombine(a: string, b: string, s: string)
    ensures ParsedRange(a + " " + b).Ok? <==> ParsedRange(a).Ok? && ParsedRange(b).Ok?
    ensures ParsedRange(a).Ok? && ParsedRange(b).Ok? ==> (AppliesTo(a + " " + b, s) <==> AppliesTo(a, s) && AppliesTo(b, s))
  {
    hide ParsedRange, ParsedCheck, Fields, Holds, ParsedVersion;
    RangeChecks(a);
    RangeChecks(b);
    RangeChecks(a + " " + b);
    FieldsBoth(a, b);
    var fa, fb, f := Fields(a), Fields(b), Fields(a + " " + b);
    assert forall i :: 0 <= i < |fa| ==> f[i] == fa[i];
    assert forall i :: 0 <= i < |fb| ==> f[|fa| + i] == fb[i];
    assert forall i :: 0 <= i < |f| ==> if i < |fa| then f[i] == fa[i] else f[i] == fb[i - |fa|];
    if ParsedRange(a).Ok? && ParsedRange(b).Ok? {
      assert ParsedRange(a + " " + b).value == ParsedRange(a).value + ParsedRange(b).value;
      if Parseable(s) {
        BothSatisfied(ParsedRange(a).value, ParsedRange(b).value, ParsedVersion(s).value);
      }
    }
  }

  lemma BothSatisfied(a: seq<Check>, b: seq<Check>, w: Version)
    ensures Satisfies(a + b, w) <==> Satisfies(a, w) && Satisfies(b, w)
  {
    hide Holds;
    assert forall i :: 0 <= i < |a| ==> (a + b)[i] == a[i];
    assert forall i :: 0 <= i < |b| ==> (a + b)[|a| + i] == b[i];
  }
}
