/** Pulling a JSON value out of a model's reply. */
module ExtractJson {
  import opened Basics
  import opened GoStrings
  import opened Json

  // --- the scanner ---------------------------------------------------------------------------

  /** Where the scanner stands; only brackets of the kind `b` are counted. */
  datatype Scan = Scan(depth: int, inString: bool, escaped: bool)

  function Step(st: Scan, c: char, b: Bracket): (r: Scan)
  {
    if st.escaped then st.(escaped := false)
    else if c == '\\' && st.inString then st.(escaped := true)
    else if c == '"' then st.(inString := !st.inString)
    else if st.inString then st
    else if c == Opener(b) then st.(depth := st.depth + 1)
    else if c == Closer(b) then st.(depth := st.depth - 1)
    else st
  }

  /** This character closes the value that the scan began with. */
  predicate Stops(st: Scan, c: char, b: Bracket)
  {
    !st.escaped && !st.inString && c == Closer(b) && st.depth == 1
  }

  /** The index at which the scan stops, from `i` on. */
  function ClosedAt(s: string, i: nat, st: Scan, b: Bracket): (end: Option<nat>)
    ensures end.Some? ==> i <= end.value < |s|
    decreases |s| - i
  {
    if i >= |s| then None
    else if Stops(st, s[i], b) then Some(i)
    else ClosedAt(s, i + 1, Step(st, s[i], b), b)
  }

  // --- fences ------------------------------------------------------------------------------------

  predicate FenceAt(s: string, i: nat)
  {
    i + 3 <= |s| && s[i] == '`' && s[i + 1] == '`' && s[i + 2] == '`'
  }

  /** The index of the first fence; |s| when there is none. */
  function Fence(s: string): (i: nat)
    ensures i <= |s| && (i < |s| ==> FenceAt(s, i))
    ensures forall k :: 0 <= k < i ==> !FenceAt(s, k)
  {
    if s == "" || FenceAt(s, 0) then 0
    else
      var i := 1 + Fence(s[1..]);
      assert forall k :: 0 < k < i ==> !FenceAt(s, k) by {
        forall k | 0 < k < i ensures !FenceAt(s, k) {
          assert FenceAt(s, k) <==> FenceAt(s[1..], k - 1);
        }
      }
      i
  }

  function BetweenFence(s: string): (r: string)
  {
    var i := Fence(s);
    if i == |s| then ""
    else
      var after := s[i + 3..];
      var nl := IndexAny(after, "\n");
      var rest := if nl < |after| then after[nl + 1..] else after;
      TrimSpace(rest[..Fence(rest)])
  }

  /** What is searched: the first fenced block, or the whole text if there is no block or nothing in it. */
  function Searched(text: string): (s: string)
  {
    var s := TrimSpace(text);
    if BetweenFence(s) != "" then BetweenFence(s) else s
  }

  const BRACKETS := "{["

  function Extracted(text: string): (r: Option<string>)
  {
    var s := Searched(text);
    var start := IndexAny(s, BRACKETS);
    if start == |s| then None
    else
      var b := if s[start] == '[' then Square else Curly;
      match ClosedAt(s, start, Scan(0, false, false), b)
      case None => None
      case Some(end) => Some(s[start..end + 1])
  }

  /** The loop of extractJSON: where the value that begins at `start` ends. */
  method FindClose(s: string, start: nat) returns (end: Option<nat>)
    requires start < |s| && s[start] in BRACKETS
    ensures end == ClosedAt(s, start, Scan(0, false, false), if s[start] == '[' then Square else Curly)
  {
    ghost var b := if s[start] == '[' then Square else Curly;
    var open, closer := s[start], '}';
    if open == '[' {
      closer := ']';
    }
    assert open == Opener(b) && closer == Closer(b);
    var depth, inString, escaped := 0, false, false;
    for i := start to |s|
      invariant depth >= 0 && (i > start ==> depth >= 1) && (i == start ==> depth == 0 && !inString && !escaped)
      invariant ClosedAt(s, start, Scan(0, false, false), b) == ClosedAt(s, i, Scan(depth, inString, escaped), b)
    {
      var c := s[i];
      if escaped {
        escaped := false;
      } else if c == '\\' && inString {
        escaped := true;
      } else if c == '"' {
        inString := !inString;
      } else if inString {
      } else if c == open {
        depth := depth + 1;
      } else if c == closer {
        depth := depth - 1;
        if depth == 0 {
          return Some(i);
        }
      }
    }
    return None;
  }

  method ExtractJson(text: string) returns (r: Option<string>)
    ensures r == Extracted(text)
  {
    hide ClosedAt, IndexAny, BetweenFence, TrimSpace;
    var s := TrimSpace(text);
    var fenced := BetweenFence(s);
    if fenced != "" {
      s := fenced;
    }
    var start := IndexAny(s, BRACKETS);
    if start == |s| {
      return None;
    }
    var end := FindClose(s, start);
    return if end.None? then None else Some(s[start..end.value + 1]);
  }

  // --- scanning across a text --------------------------------------------------------------------------

  /** The state after a text that does not stop the scan. */
  function Through(text: string, st: Scan, b: Bracket): (r: Option<Scan>)
  {
    if text == "" then Some(st)
    else if Stops(st, text[0], b) then None
    else Through(text[1..], Step(st, text[0], b), b)
  }

  lemma {:induction false} ThroughBoth(x: string, y: string, st: Scan, b: Bracket)
    requires Through(x, st, b).Some?
    ensures Through(x + y, st, b) == Through(y, Through(x, st, b).value, b)
  {
    hide Step, Stops;
    if x == "" {
      assert x + y == y;
    } else {
      ThroughBoth(x[1..], y, Step(st, x[0], b), b);
      assert (x + y)[1..] == x[1..] + y;
    }
  }

  lemma {:induction false} ClosedBeyond(s: string, i: nat, j: nat, st: Scan, b: Bracket)
    requires i <= j <= |s| && Through(s[i..j], st, b).Some?
    ensures ClosedAt(s, i, st, b) == ClosedAt(s, j, Through(s[i..j], st, b).value, b)
    decreases j - i
  {
    hide Step, Stops;
    if i < j {
      assert s[i..j][1..] == s[i + 1..j];
      ClosedBeyond(s, i + 1, j, Step(st, s[i], b), b);
    }
  }

  function At(depth: int): (r: Scan)
  {
    Scan(depth, false, false)
  }

  /** A text that leaves the scanner where it was, at depth `d` or deeper. */
  predicate Neutral(text: string, d: int, b: Bracket)
  {
    Through(text, At(d), b) == Some(At(d))
  }

  lemma NeutralBoth(x: string, y: string, d: int, b: Bracket)
    requires Neutral(x, d, b) && Neutral(y, d, b)
    ensures Neutral(x + y, d, b)
  {
    ThroughBoth(x, y, At(d), b);
  }

  predicate Inert(c: char)
  {
    c !in {'"', '{', '}', '[', ']'}
  }

  lemma {:induction false} InertIsNeutral(text: string, d: int, b: Bracket)
    requires forall i :: 0 <= i < |text| ==> Inert(text[i])
    ensures Neutral(text, d, b)
  {
    if text != "" {
      assert Inert(text[0]);
      InertIsNeutral(text[1..], d, b);
    }
  }

  // --- scanning a JSON text ------------------------------------------------------------------------------

  lemma CharStays(c: StrChar, d: int, b: Bracket)
    requires CharOk(c)
    ensures Through(PrintChar(c), Scan(d, true, false), b) == Some(Scan(d, true, false))
  {
    match c {
      case Plain(x) => assert PrintChar(c)[1..] == "";
      case Short(x) =>
        assert PrintChar(c)[1..] == [x] && [x][1..] == "";
        assert Through(PrintChar(c), Scan(d, true, false), b) == Through([x], Scan(d, true, true), b);
        assert Through([x], Scan(d, true, true), b) == Through([x][1..], Scan(d, true, false), b);
      case Unicode(hex) =>
        var st := Scan(d, true, false);
        assert PrintChar(c)[1..] == ['u'] + hex && (['u'] + hex)[1..] == hex;
        assert Through(PrintChar(c), st, b) == Through(hex, st, b);
        HexStays(hex, d, b);
    }
  }

  lemma {:induction false} HexStays(hex: string, d: int, b: Bracket)
    requires forall i :: 0 <= i < |hex| ==> HexDigit(hex[i])
    ensures Through(hex, Scan(d, true, false), b) == Some(Scan(d, true, false))
  {
    if hex != "" {
      assert HexDigit(hex[0]);
      HexStays(hex[1..], d, b);
    }
  }

  lemma {:induction false} CharsStay(chars: seq<StrChar>, d: int, b: Bracket)
    requires CharsOk(chars)
    ensures Through(PrintChars(chars), Scan(d, true, false), b) == Some(Scan(d, true, false))
  {
    hide CharOk, Step, PrintChar;
    if chars != [] {
      CharStays(chars[0], d, b);
      CharsStay(chars[1..], d, b);
      ThroughBoth(PrintChar(chars[0]), PrintChars(chars[1..]), Scan(d, true, false), b);
    }
  }

  /** Whatever a string holds, the scanner comes out of it where it went in. */
  lemma QuotedIsNeutral(chars: seq<StrChar>, d: int, b: Bracket)
    requires CharsOk(chars)
    ensures Neutral(Quoted(chars), d, b)
  {
    var inner := PrintChars(chars);
    CharsStay(chars, d, b);
    ThroughBoth(inner, "\"", Scan(d, true, false), b);
    assert Quoted(chars)[1..] == inner + "\"";
    assert "\""[1..] == "";
  }

  lemma SpacesAreNeutral(s: string, d: int, b: Bracket)
    requires Spaces(s)
    ensures Neutral(s, d, b)
  {
    InertIsNeutral(s, d, b);
  }

  lemma LabelIsNeutral(l: Label, kind: Bracket, d: int, b: Bracket)
    requires LabelOk(kind, l)
    ensures Neutral(PrintLabel(l), d, b)
  {
    hide Neutral, Quoted, Spaces;
    match l {
      case Bare(before) => SpacesAreNeutral(before, d, b);
      case Key(before, chars, mid, gap) =>
        SpacesAreNeutral(before, d, b);
        QuotedIsNeutral(chars, d, b);
        SpacesAreNeutral(mid, d, b);
        InertIsNeutral(":", d, b);
        SpacesAreNeutral(gap, d, b);
        NeutralBoth(before, Quoted(chars), d, b);
        NeutralBoth(before + Quoted(chars), mid, d, b);
        NeutralBoth(before + Quoted(chars) + mid, ":", d, b);
        NeutralBoth(before + Quoted(chars) + mid + ":", gap, d, b);
    }
  }

  /** Brackets of either kind around a neutral body are neutral, once the scan is inside a value. */
  lemma NodeIsNeutral(kind: Bracket, body: string, d: int, b: Bracket)
    requires d >= 1 && Neutral(body, if kind == b then d + 1 else d, b)
    ensures Neutral([Opener(kind)] + body + [Closer(kind)], d, b)
  {
    var inside := if kind == b then d + 1 else d;
    var text := [Opener(kind)] + body + [Closer(kind)];
    assert text[1..] == body + [Closer(kind)];
    assert Step(At(d), text[0], b) == At(inside);
    ThroughBoth(body, [Closer(kind)], At(inside), b);
    assert [Closer(kind)][1..] == "";
    assert Through([Closer(kind)], At(inside), b) == Some(At(d));
  }

  lemma {:induction false} ValueIsNeutral(v: Value, d: int, b: Bracket)
    requires ValueOk(v) && d >= 1
    ensures Neutral(Print(v), d, b)
    decreases v
  {
    hide Neutral, Quoted, Spaces, CharsOk;
    match v {
      case Atom(text) => InertIsNeutral(text, d, b);
      case Str(chars) => QuotedIsNeutral(chars, d, b);
      case Node(kind, space, entries) =>
        BodyIsNeutral(kind, space, entries, if kind == b then d + 1 else d, b);
        NodeIsNeutral(kind, Body(space, entries), d, b);
    }
  }

  lemma {:induction false} BodyIsNeutral(kind: Bracket, space: string, entries: Entries, d: int, b: Bracket)
    requires Spaces(space) && EntriesOk(kind, entries) && d >= 1
    ensures Neutral(Body(space, entries), d, b)
    decreases entries, 1
  {
    if entries.End? {
      SpacesAreNeutral(space, d, b);
    } else {
      EntriesAreNeutral(kind, entries, d, b);
    }
  }

  lemma {:induction false} EntriesAreNeutral(kind: Bracket, e: Entries, d: int, b: Bracket)
    requires EntriesOk(kind, e) && d >= 1
    ensures Neutral(PrintEntries(e), d, b)
    decreases e, 0
  {
    hide Neutral, Print, PrintLabel, Spaces, LabelOk, ValueOk;
    match e {
      case End => InertIsNeutral("", d, b);
      case Entry(head, value, after, rest) =>
        LabelIsNeutral(head, kind, d, b);
        ValueIsNeutral(value, d, b);
        SpacesAreNeutral(after, d, b);
        NeutralBoth(PrintLabel(head), Print(value), d, b);
        NeutralBoth(PrintLabel(head) + Print(value), after, d, b);
        var tail := if rest.End? then "" else "," + PrintEntries(rest);
        if !rest.End? {
          InertIsNeutral(",", d, b);
          EntriesAreNeutral(kind, rest, d, b);
          NeutralBoth(",", PrintEntries(rest), d, b);
        } else {
          InertIsNeutral("", d, b);
        }
        NeutralBoth(PrintLabel(head) + Print(value) + after, tail, d, b);
    }
  }

  // --- a value in a text -----------------------------------------------------------------------------------

  /** The scan that begins with a value's own bracket stops at its last character. */
  lemma ClosesAtItsEnd(before: string, v: Value, rest: string)
    requires ValueOk(v) && v.Node?
    ensures ClosedAt(before + Print(v) + rest, |before|, At(0), v.bracket) == Some(|before| + |Print(v)| - 1)
  {
    var b, body := v.bracket, Body(v.space, v.entries);
    var s := before + Print(v) + rest;
    BodyIsNeutral(b, v.space, v.entries, 1, b);
    hide Body, ClosedAt;
    var first, last := |before|, |before| + 1 + |body|;
    assert s[first..last] == [Opener(b)] + body;
    assert ([Opener(b)] + body)[1..] == body;
    assert Through(s[first..last], At(0), b) == Some(At(1));
    ClosedBeyond(s, first, last, At(0), b);
    assert s[last] == Closer(b);
    StopsHere(s, last, b);
  }

  lemma StopsHere(s: string, i: nat, b: Bracket)
    requires i < |s| && s[i] == Closer(b)
    ensures ClosedAt(s, i, At(1), b) == Some(i)
  {
  }

  predicate NoBracket(s: string)
  {
    forall i :: 0 <= i < |s| ==> s[i] !in BRACKETS
  }

  lemma PrintedEnds(v: Value)
    requires v.Node?
    ensures |Print(v)| >= 2 && Print(v)[0] == Opener(v.bracket) && Print(v)[|Print(v)| - 1] == Closer(v.bracket)
  {
  }

  /** The core of both cases: what is searched has a value after text without brackets. */
  lemma FoundAfter(before: string, v: Value, rest: string)
    requires ValueOk(v) && v.Node? && NoBracket(before)
    ensures var s := before + Print(v) + rest;
            var start := IndexAny(s, BRACKETS);
            && start == |before| && s[start] == Opener(v.bracket)
            && ClosedAt(s, start, At(0), v.bracket) == Some(|before| + |Print(v)| - 1)
            && s[start..|before| + |Print(v)|] == Print(v)
  {
    var s := before + Print(v) + rest;
    PrintedEnds(v);
    ClosesAtItsEnd(before, v, rest);
    hide Print, ClosedAt;
    assert s[|before|] == Print(v)[0];
    assert forall i :: 0 <= i < |before| ==> s[i] == before[i];
  }

  lemma TrimLeftNoBracket(x: string)
    requires NoBracket(x)
    ensures NoBracket(TrimLeft(x))
  {
    TrimLeftKeeps(x);
  }

  predicate NoFence(s: string)
  {
    forall i :: 0 <= i < |s| ==> !FenceAt(s, i)
  }

  lemma NoFenceInside(x: string, s: string, y: string)
    requires NoFence(x + s + y)
    ensures NoFence(s)
  {
    forall i | 0 <= i < |s| ensures !FenceAt(s, i) {
      assert !FenceAt(x + s + y, |x| + i);
    }
  }

  lemma ExtractedFrom(text: string, before: string, v: Value, rest: string)
    requires ValueOk(v) && v.Node? && NoBracket(before)
    requires Searched(text) == before + Print(v) + rest
    ensures Extracted(text) == Some(Print(v))
  {
    FoundAfter(before, v, rest);
    PrintedEnds(v);
    hide Print, ClosedAt, Searched, IndexAny;
  }

  lemma TrimIsSlice(text: string) returns (i: nat, j: nat)
    ensures i <= j <= |text| && TrimSpace(text) == text[i..j]
  {
    var left := TrimLeft(text);
    TrimLeftKeeps(text);
    TrimRightKeeps(left);
    hide TrimLeft, TrimRight;
    var n :| 0 <= n <= |text| && left == text[n..];
    var m :| 0 <= m <= |left| && TrimRight(left) == left[..m];
    i, j := n, n + m;
    assert text[n..][..m] == text[n..n + m];
  }

  lemma TrimmedHasNoFence(text: string)
    requires NoFence(text)
    ensures NoFence(TrimSpace(text))
  {
    hide TrimSpace, NoFence;
    var i, j := TrimIsSlice(text);
    assert text == text[..i] + text[i..j] + text[j..];
    NoFenceInside(text[..i], text[i..j], text[j..]);
  }

  /** In a reply without a fence: the value is returned, whatever surrounds it, if no bracket comes before it. */
  lemma ProseIsStripped(before: string, v: Value, after: string)
    requires ValueOk(v) && v.Node? && NoBracket(before) && NoFence(before + Print(v) + after)
    ensures Extracted(before + Print(v) + after) == Some(Print(v))
  {
    var text := before + Print(v) + after;
    PrintedEnds(v);
    TrimAround(before, Print(v), after);
    TrimLeftNoBracket(before);
    TrimmedHasNoFence(text);
    assert BetweenFence(TrimSpace(text)) == "";
    ExtractedFrom(text, TrimLeft(before), v, TrimRight(after));
  }

  lemma {:induction false} TrimRightKeeps(x: string)
    ensures exists n :: 0 <= n <= |x| && TrimRight(x) == x[..n]
  {
    if x != "" && IsSpace(x[|x| - 1]) {
      TrimRightKeeps(x[..|x| - 1]);
      var n :| 0 <= n <= |x| - 1 && TrimRight(x[..|x| - 1]) == x[..|x| - 1][..n];
      assert x[..|x| - 1][..n] == x[..n];
    } else {
      assert x[..|x|] == x;
    }
  }

  // --- a value in a fenced block ------------------------------------------------------------------------------

  const FENCE := "```"

  /** Put before a fence, this text leaves that fence the first one. */
  predicate LeavesFirst(x: string)
  {
    forall i :: 0 <= i < |x| ==> !FenceAt(x + FENCE, i)
  }

  lemma FirstFence(x: string, y: string)
    requires LeavesFirst(x)
    ensures Fence(x + FENCE + y) == |x|
  {
    var s := x + FENCE + y;
    assert FenceAt(s, |x|);
    forall i | 0 <= i < |x| ensures !FenceAt(s, i) {
      assert !FenceAt(x + FENCE, i);
      assert forall k :: 0 <= k < |x| + 3 ==> s[k] == (x + FENCE)[k];
    }
  }

  lemma LaterLeavesFirst(x: string, n: nat)
    requires LeavesFirst(x) && n <= |x|
    ensures LeavesFirst(x[n..])
  {
    forall i | 0 <= i < |x| - n ensures !FenceAt(x[n..] + FENCE, i) {
      assert !FenceAt(x + FENCE, n + i);
      assert x[n..] + FENCE == (x + FENCE)[n..];
    }
  }

  lemma FirstNewline(tag: string, y: string)
    requires '\n' !in tag
    ensures IndexAny(tag + "\n" + y, "\n") == |tag|
  {
    var s := tag + "\n" + y;
    assert s[|tag|] == '\n';
    assert forall i :: 0 <= i < |tag| ==> s[i] == tag[i];
    assert forall i :: 0 <= i < |s| ==> (s[i] in "\n" <==> s[i] == '\n');
  }

  /** How a block ends: with a fence that is the first one after its beginning, or with the text. */
  predicate BlockEnds(body: string, tail: string)
  {
    || (FENCE <= tail && LeavesFirst(body))
    || (tail == "" && NoFence(body))
  }

  lemma BlockEndsAt(body: string, tail: string)
    requires BlockEnds(body, tail)
    ensures Fence(body + tail) == |body|
  {
    if FENCE <= tail && LeavesFirst(body) {
      FirstFence(body, tail[3..]);
      assert body + tail == body + FENCE + tail[3..];
    } else {
      assert body + tail == body;
    }
  }

  lemma BlockIsFound(pre: string, tag: string, body: string, tail: string)
    requires LeavesFirst(pre) && '\n' !in tag && BlockEnds(body, tail)
    ensures BetweenFence(pre + FENCE + tag + "\n" + body + tail) == TrimSpace(body)
  {
    var s := pre + FENCE + tag + "\n" + body + tail;
    var after := tag + "\n" + (body + tail);
    hide TrimSpace, LeavesFirst, BlockEnds, Fence, IndexAny;
    assert s == pre + FENCE + after;
    FirstFence(pre, after);
    assert s[|pre| + 3..] == after;
    FirstNewline(tag, body + tail);
    assert after[|tag| + 1..] == body + tail;
    BlockEndsAt(body, tail);
    assert (body + tail)[..|body|] == body;
  }

  lemma {:induction false} SpacesTrimLeft(s: string)
    requires Spaces(s)
    ensures TrimLeft(s) == ""
  {
    if s != "" {
      assert IsSpace(s[0]);
      SpacesTrimLeft(s[1..]);
    }
  }

  lemma {:induction false} SpacesTrimRight(s: string)
    requires Spaces(s)
    ensures TrimRight(s) == ""
  {
    if s != "" {
      assert IsSpace(s[|s| - 1]);
      SpacesTrimRight(s[..|s| - 1]);
    }
  }

  lemma PaddedTrims(left: string, v: Value, right: string)
    requires Spaces(left) && Spaces(right) && v.Node?
    ensures TrimSpace(left + Print(v) + right) == Print(v)
  {
    PrintedEnds(v);
    TrimAround(left, Print(v), right);
    SpacesTrimLeft(left);
    SpacesTrimRight(right);
    assert "" + Print(v) + "" == Print(v);
  }

  lemma SearchedBlock(text: string, pre: string, tag: string, left: string, v: Value, right: string, tail: string)
    requires TrimSpace(text) == pre + FENCE + tag + "\n" + (left + Print(v) + right) + tail
    requires LeavesFirst(pre) && '\n' !in tag && BlockEnds(left + Print(v) + right, tail)
    requires Spaces(left) && Spaces(right) && ValueOk(v) && v.Node?
    ensures Extracted(text) == Some(Print(v))
  {
    hide TrimSpace, BetweenFence, LeavesFirst, BlockEnds, Print, Spaces, ValueOk, Extracted;
    BlockIsFound(pre, tag, left + Print(v) + right, tail);
    PaddedTrims(left, v, right);
    PrintedEnds(v);
    assert Searched(text) == "" + Print(v) + "";
    ExtractedFrom(text, "", v, "");
  }

  lemma TrimmedLeavesFirst(x: string)
    requires LeavesFirst(x)
    ensures LeavesFirst(TrimLeft(x))
  {
    hide LeavesFirst, TrimLeft;
    TrimLeftKeeps(x);
    var n :| 0 <= n <= |x| && TrimLeft(x) == x[n..];
    LaterLeavesFirst(x, n);
  }

  lemma BlockSpelled(pre: string, tag: string, body: string, post: string)
    ensures pre + (FENCE + tag + "\n" + body + FENCE) + post == pre + FENCE + tag + "\n" + body + FENCE + post
    ensures pre + FENCE + tag + "\n" + body + FENCE + post == pre + FENCE + tag + "\n" + body + (FENCE + post)
  {
  }

  lemma BlockTrimmed(pre: string, tag: string, body: string, post: string)
    ensures TrimSpace(pre + FENCE + tag + "\n" + body + FENCE + post)
         == TrimLeft(pre) + FENCE + tag + "\n" + body + (FENCE + TrimRight(post))
  {
    hide TrimSpace, TrimLeft, TrimRight;
    var core := FENCE + tag + "\n" + body + FENCE;
    assert core[0] == '`' && core[|core| - 1] == '`';
    BlockSpelled(pre, tag, body, post);
    TrimAround(pre, core, post);
    BlockSpelled(TrimLeft(pre), tag, body, TrimRight(post));
  }

  lemma ClosedBlockEnds(body: string, post: string)
    requires LeavesFirst(body)
    ensures BlockEnds(body, FENCE + post)
  {
    hide LeavesFirst;
    assert FENCE <= FENCE + post;
  }

  /**
   * In a reply with a fence: the value that is the body of the first block is returned, whatever the prose
   * around the block holds, brackets included, and whether or not the block has a language tag.
   */
  lemma FencedBlockIsFound(pre: string, tag: string, left: string, v: Value, right: string, post: string)
    requires LeavesFirst(pre) && '\n' !in tag && LeavesFirst(left + Print(v) + right)
    requires Spaces(left) && Spaces(right) && ValueOk(v) && v.Node?
    ensures Extracted(pre + FENCE + tag + "\n" + (left + Print(v) + right) + FENCE + post) == Some(Print(v))
  {
    hide *;
    var body := left + Print(v) + right;
    BlockTrimmed(pre, tag, body, post);
    TrimmedLeavesFirst(pre);
    ClosedBlockEnds(body, TrimRight(post));
    SearchedBlock(pre + FENCE + tag + "\n" + body + FENCE + post, TrimLeft(pre), tag, left, v, right,
                  FENCE + TrimRight(post));
  }

  lemma OpenBlockTrimmed(pre: string, tag: string, left: string, v: Value, right: string)
    requires ValueOk(v) && v.Node? && Spaces(right)
    ensures TrimSpace(pre + FENCE + tag + "\n" + (left + Print(v) + right))
         == TrimLeft(pre) + FENCE + tag + "\n" + (left + Print(v) + "") + ""
  {
    hide TrimSpace, TrimLeft, TrimRight, Spaces, ValueOk, Print;
    var core := FENCE + tag + "\n" + left + Print(v);
    PrintedEnds(v);
    assert core[0] == '`' && core[|core| - 1] == Print(v)[|Print(v)| - 1];
    assert pre + FENCE + tag + "\n" + (left + Print(v) + right) == pre + core + right;
    TrimAround(pre, core, right);
    SpacesTrimRight(right);
    assert TrimLeft(pre) + core + "" == TrimLeft(pre) + FENCE + tag + "\n" + (left + Print(v) + "") + "";
  }

  /** The same when the reply breaks off before the closing fence. */
  lemma OpenBlockIsFound(pre: string, tag: string, left: string, v: Value, right: string)
    requires LeavesFirst(pre) && '\n' !in tag && NoFence(left + Print(v))
    requires Spaces(left) && Spaces(right) && ValueOk(v) && v.Node?
    ensures Extracted(pre + FENCE + tag + "\n" + (left + Print(v) + right)) == Some(Print(v))
  {
    hide Print, LeavesFirst, ValueOk, Extracted, TrimSpace, TrimLeft, NoFence;
    OpenBlockTrimmed(pre, tag, left, v, right);
    TrimmedLeavesFirst(pre);
    assert left + Print(v) + "" == left + Print(v);
    SearchedBlock(pre + FENCE + tag + "\n" + (left + Print(v) + right), TrimLeft(pre), tag, left, v, "", "");
  }
}
