/** Version vectors, their order, and the strings they are parsed from. */
module Versions {
  import opened Basics
  import opened GoStrings

  type Version = seq<int>

  // --- the order -----------------------------------------------------------

  /** Component `i`, where a version that has run out of components reads as zero. */
  function At(v: Version, i: nat): (n: int)
  {
    if i < |v| then v[i] else 0
  }

  function Tail(v: Version): (t: Version)
    ensures v != [] ==> |t| < |v|
    ensures |t| <= |v|
  {
    if v == [] then [] else v[1..]
  }

  /** The sign of the comparison of two versions. */
  function Order(a: Version, b: Version): (c: int)
    ensures -1 <= c <= 1
    decreases |a| + |b|
  {
    if a == [] && b == [] then 0
    else if At(a, 0) < At(b, 0) then -1
    else if At(a, 0) > At(b, 0) then 1
    else Order(Tail(a), Tail(b))
  }

  /** `a` is below `b`: they agree on a prefix and then `a` has the smaller component. */
  ghost predicate Below(a: Version, b: Version)
  {
    exists i: nat :: BelowAt(a, b, i)
  }

  ghost predicate BelowAt(a: Version, b: Version, i: nat)
  {
    At(a, i) < At(b, i) && forall j: nat :: j < i ==> At(a, j) == At(b, j)
  }

  ghost predicate Same(a: Version, b: Version)
  {
    forall i: nat :: At(a, i) == At(b, i)
  }

  lemma AtTail(v: Version, i: nat)
    ensures At(Tail(v), i) == At(v, i + 1)
  {
  }

  /** The computed sign means what a reader of the zero-padded vectors expects. */
  lemma {:induction false} OrderMeaning(a: Version, b: Version)
    ensures Order(a, b) < 0 <==> Below(a, b)
    ensures Order(a, b) == 0 <==> Same(a, b)
    ensures Order(a, b) > 0 <==> Below(b, a)
    decreases |a| + |b|
  {
    if a == [] && b == [] {
    } else if At(a, 0) < At(b, 0) {
      assert BelowAt(a, b, 0);
    } else if At(a, 0) > At(b, 0) {
      assert BelowAt(b, a, 0);
    } else {
      OrderMeaning(Tail(a), Tail(b));
      BelowTail(a, b);
      BelowTail(b, a);
      SameTail(a, b);
    }
  }

  lemma BelowTail(a: Version, b: Version)
    requires At(a, 0) == At(b, 0)
    ensures Below(a, b) <==> Below(Tail(a), Tail(b))
  {
    if Below(a, b) {
      var i: nat :| BelowAt(a, b, i);
      assert BelowAt(Tail(a), Tail(b), i - 1) by {
        AtTail(a, i - 1);
        AtTail(b, i - 1);
        forall j: nat | j < i - 1 ensures At(Tail(a), j) == At(Tail(b), j) {
          AtTail(a, j);
          AtTail(b, j);
        }
      }
    }
    if Below(Tail(a), Tail(b)) {
      var i: nat :| BelowAt(Tail(a), Tail(b), i);
      assert BelowAt(a, b, i + 1) by {
        AtTail(a, i);
        AtTail(b, i);
        forall j: nat | j < i + 1 ensures At(a, j) == At(b, j) {
          if j > 0 {
            AtTail(a, j - 1);
            AtTail(b, j - 1);
          }
        }
      }
    }
  }

  lemma SameTail(a: Version, b: Version)
    requires At(a, 0) == At(b, 0)
    ensures Same(a, b) <==> Same(Tail(a), Tail(b))
  {
    if Same(a, b) {
      forall i: nat ensures At(Tail(a), i) == At(Tail(b), i) {
        AtTail(a, i);
        AtTail(b, i);
      }
    }
    if Same(Tail(a), Tail(b)) {
      forall i: nat ensures At(a, i) == At(b, i) {
        if i > 0 {
          AtTail(a, i - 1);
          AtTail(b, i - 1);
        }
      }
    }
  }

  /** Zero padding makes the order a total preorder: signs flip with the arguments ... */
  lemma {:induction false} OrderFlips(a: Version, b: Version)
    ensures Order(a, b) == -Order(b, a)
    decreases |a| + |b|
  {
    if !(a == [] && b == []) && At(a, 0) == At(b, 0) {
      OrderFlips(Tail(a), Tail(b));
    }
  }

  /** ... and comparisons chain, strictly when either link is strict. */
  lemma {:induction false} OrderChains(a: Version, b: Version, c: Version)
    requires Order(a, b) <= 0 && Order(b, c) <= 0
    ensures Order(a, c) <= 0
    ensures Order(a, c) == 0 <==> Order(a, b) == 0 && Order(b, c) == 0
    decreases |a| + |b| + |c|
  {
    if At(a, 0) == At(b, 0) == At(c, 0) && !(a == b == c == []) {
      OrderChains(Tail(a), Tail(b), Tail(c));
      OrderUnfolds(a, b);
      OrderUnfolds(b, c);
      OrderUnfolds(a, c);
    }
  }

  lemma OrderUnfolds(a: Version, b: Version)
    requires At(a, 0) == At(b, 0)
    ensures Order(a, b) == Order(Tail(a), Tail(b))
  {
  }

  /** A version with one more component, after the zeros that pad it to `n`. */
  function Extended(v: Version, n: nat, last: int): (w: Version)
    ensures |w| == (if |v| < n then n else |v|) + 1
    ensures forall i :: 0 <= i < |w| ==> w[i] == (if i == |w| - 1 then last else At(v, i))
    decreases n - |v|
  {
    if |v| < n then Extended(v + [0], n, last) else v + [last]
  }

  /** The order is dense: some version lies strictly between any two that differ. */
  lemma Dense(a: Version, b: Version)
    requires Order(a, b) < 0
    ensures var m := Extended(a, |b|, 1); Order(a, m) < 0 && Order(m, b) < 0
  {
    var m := Extended(a, |b|, 1);
    OrderMeaning(a, b);
    assert BelowAt(a, m, |m| - 1);
    OrderMeaning(a, m);
    var i: nat :| BelowAt(a, b, i);
    assert i < |m| - 1;
    assert BelowAt(m, b, i);
    OrderMeaning(m, b);
  }

  /** There is no greatest and no least version, and the neighbour needs only one more component. */
  lemma NoExtremes(v: Version)
    ensures Order(v, v + [1]) < 0 && Order(v + [-1], v) < 0
  {
    assert BelowAt(v, v + [1], |v|);
    assert BelowAt(v + [-1], v, |v|);
    OrderMeaning(v, v + [1]);
    OrderMeaning(v + [-1], v);
  }

  function Drop(v: Version, i: nat): (r: Version)
  {
    if i <= |v| then v[i..] else []
  }

  /** compareVersions. */
  method CompareVersions(a: Version, b: Version) returns (cmp: int)
    ensures cmp == Order(a, b)
    ensures cmp < 0 <==> Below(a, b)
    ensures cmp == 0 <==> Same(a, b)
  {
    OrderMeaning(a, b);
    var i := 0;
    while i < |a| || i < |b|
      invariant Order(a, b) == Order(Drop(a, i), Drop(b, i))
      decreases |a| + |b| - i
    {
      var av, bv := 0, 0;
      if i < |a| {
        av := a[i];
      }
      if i < |b| {
        bv := b[i];
      }
      assert At(Drop(a, i), 0) == av && At(Drop(b, i), 0) == bv;
      assert Tail(Drop(a, i)) == Drop(a, i + 1) && Tail(Drop(b, i)) == Drop(b, i + 1);
      if av != bv {
        if av < bv {
          return -1;
        }
        return 1;
      }
      i := i + 1;
    }
    return 0;
  }

  // --- parsing -------------------------------------------------------------

  /** A vector whose components fit Go's 64-bit int. */
  predicate Representable(v: Version)
  {
    v != [] && forall i :: 0 <= i < |v| ==> INT_MIN <= v[i] <= INT_MAX
  }

  /** What parseVersion makes of a string: every dotted component must be an integer. */
  function ParsedVersion(s: string): (r: Result<Version>)
    ensures r.Ok? ==> Representable(r.value)
  {
    var t := TrimSpace(TrimPrefix(TrimSpace(s), "v"));
    if t == "" then Err("empty version")
    else ParsedComponents(Split(WithoutSuffix(t), '.'))
  }

  /** 7.2.4-rc1 reads as 7.2.4, but a sign in first position is kept. */
  function WithoutSuffix(t: string): (s: string)
  {
    var i := IndexAny(t, "-+");
    if 0 < i < |t| then t[..i] else t
  }

  function ParsedComponents(parts: seq<string>): (r: Result<Version>)
    requires parts != []
    ensures r.Ok? ==> |r.value| == |parts| && Representable(r.value)
    ensures r.Ok? <==> forall i :: 0 <= i < |parts| ==> Atoi(parts[i]).Some?
  {
    if forall i :: 0 <= i < |parts| ==> Atoi(parts[i]).Some? then
      Ok(seq(|parts|, i requires 0 <= i < |parts| => Atoi(parts[i]).value))
    else
      Err("not a numeric version component")
  }

  /** parseVersion. */
  method ParseVersion(s: string) returns (r: Result<Version>)
    ensures r == ParsedVersion(s)
  {
    var t := TrimSpace(TrimPrefix(TrimSpace(s), "v"));
    if t == "" {
      return Err("empty version");
    }
    var i := IndexAny(t, "-+");
    if 0 < i < |t| {
      t := t[..i];
    }
    var parts := Split(t, '.');
    var out: Version := [];
    for k := 0 to |parts|
      invariant |out| == k
      invariant forall j :: 0 <= j < k ==> Atoi(parts[j]).Some? && out[j] == Atoi(parts[j]).value
    {
      var n := Atoi(parts[k]);
      if n.None? {
        return Err("not a numeric version component");
      }
      out := out + [n.value];
    }
    assert out == ParsedComponents(parts).value;
    return Ok(out);
  }

  // --- every version vector has a spelling ----------------------------------

  function PrintComponent(n: int): (s: string)
    ensures |s| >= 2 && (s[0] == '+' || s[0] == '-') && IsDigit(s[|s| - 1])
  {
    if n < 0 then "-" + Itoa(-n) else "+" + Itoa(n)
  }

  function PrintVersion(v: Version): (s: string)
    requires v != []
  {
    if |v| == 1 then PrintComponent(v[0])
    else PrintComponent(v[0]) + "." + PrintVersion(v[1..])
  }

  /** A printed version starts with a sign and ends with a digit. */
  lemma {:induction false} PrintedEnds(v: Version)
    requires v != []
    ensures var s := PrintVersion(v); |s| >= 2 && (s[0] == '+' || s[0] == '-') && IsDigit(s[|s| - 1])
  {
    hide PrintComponent, IsDigit;
    if |v| > 1 {
      PrintedEnds(v[1..]);
      var first, tail := PrintComponent(v[0]), PrintVersion(v[1..]);
      var s := first + "." + tail;
      assert s[0] == first[0] && s[|s| - 1] == tail[|tail| - 1];
    }
  }

  lemma ComponentReadsBack(n: int)
    requires INT_MIN <= n <= INT_MAX
    ensures Atoi(PrintComponent(n)) == Some(n)
    ensures '.' !in PrintComponent(n)
  {
    var s := PrintComponent(n);
    var digits := Itoa(if n < 0 then -n else n);
    assert s[1..] == digits;
    forall i | 0 <= i < |s| ensures s[i] != '.' {
      if i > 0 {
        assert IsDigit(digits[i - 1]);
      }
    }
  }

  lemma {:induction false} PrintedSplits(v: Version)
    requires Representable(v)
    ensures var parts := Split(PrintVersion(v), '.');
            |parts| == |v| && forall i :: 0 <= i < |v| ==> Atoi(parts[i]) == Some(v[i])
  {
    ComponentReadsBack(v[0]);
    if |v| == 1 {
      SplitFirst(PrintComponent(v[0]), '.', "");
    } else {
      PrintedSplits(v[1..]);
      SplitFirst(PrintComponent(v[0]), '.', PrintVersion(v[1..]));
    }
  }

  lemma SignKept(s: string)
    requires s != "" && (s[0] == '+' || s[0] == '-')
    ensures WithoutSuffix(s) == s && TrimPrefix(s, "v") == s
  {
    assert s[0] in "+-";
  }

  /** parseVersion reads every representable vector back from its printed form. */
  lemma PrintedParses(v: Version)
    requires Representable(v)
    ensures ParsedVersion(PrintVersion(v)) == Ok(v)
  {
    hide TrimSpace, TrimPrefix, WithoutSuffix, PrintVersion, Split, Atoi, IsSpace;
    var s := PrintVersion(v);
    PrintedEnds(v);
    SignIsNoSpace(s);
    TrimmedAlready(s);
    SignKept(s);
    PrintedSplits(v);
    var parts := Split(s, '.');
    assert ParsedComponents(parts).Ok? && ParsedComponents(parts).value == v;
  }

  lemma SignIsNoSpace(s: string)
    requires s != "" && (s[0] == '+' || s[0] == '-') && IsDigit(s[|s| - 1])
    ensures !IsSpace(s[0]) && !IsSpace(s[|s| - 1])
  {
  }

  lemma {:induction false} PrintedHasNoSpace(v: Version)
    requires v != []
    ensures NoSpace(PrintVersion(v))
  {
    var digits := Itoa(if v[0] < 0 then -v[0] else v[0]);
    var p := PrintComponent(v[0]);
    forall i | 0 <= i < |p| ensures !IsSpace(p[i]) {
      if i > 0 {
        assert p[i] == digits[i - 1] && IsDigit(digits[i - 1]);
      }
    }
    if |v| > 1 {
      PrintedHasNoSpace(v[1..]);
    }
  }
}
