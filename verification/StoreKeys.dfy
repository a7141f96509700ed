/** Object keys of the run store, and why their order is the order of the steps. */
module StoreKeys {
  import opened GoStrings
  import opened StringOrder

  // --- zero-padded numbers --------------------------------------------------------------

  predicate Digits(s: string)
  {
    forall i :: 0 <= i < |s| ==> IsDigit(s[i])
  }

  /** %0nd: zeros up to a minimum width. */
  function Padded(s: string, width: nat): (r: string)
    requires Digits(s)
    ensures Digits(r) && |r| == (if |s| < width then width else |s|)
    decreases width - |s|
  {
    if |s| < width then Padded("0" + s, width) else s
  }

  lemma {:induction false} LeadingZero(s: string)
    requires Digits(s)
    ensures Digits("0" + s) && Decimal("0" + s) == Decimal(s)
  {
    var z := "0" + s;
    if s == "" {
      assert z[..0] == "";
    } else {
      LeadingZero(s[..|s| - 1]);
      assert z[..|z| - 1] == "0" + s[..|s| - 1];
      assert z[|z| - 1] == s[|s| - 1];
    }
  }

  lemma {:induction false} PaddedValue(s: string, width: nat)
    requires Digits(s)
    ensures Decimal(Padded(s, width)) == Decimal(s)
    decreases width - |s|
  {
    if |s| < width {
      LeadingZero(s);
      PaddedValue("0" + s, width);
    }
  }

  lemma {:induction false} SameValueSameDigits(s: string, t: string)
    requires Digits(s) && Digits(t) && |s| == |t| && Decimal(s) == Decimal(t)
    ensures s == t
  {
    if s != "" {
      var si, ti := s[..|s| - 1], t[..|t| - 1];
      assert IsDigit(s[|s| - 1]) && IsDigit(t[|t| - 1]);
      SameValueSameDigits(si, ti);
      assert s == si + [s[|s| - 1]] && t == ti + [t[|t| - 1]];
    }
  }

  /** Among digit strings of one length, numeric order is string order. */
  lemma {:induction false} ValueOrderIsStringOrder(s: string, t: string)
    requires Digits(s) && Digits(t) && |s| == |t| && Decimal(s) < Decimal(t)
    ensures Less(s, t)
  {
    var si, ti := s[..|s| - 1], t[..|t| - 1];
    var a, b := s[|s| - 1], t[|t| - 1];
    assert IsDigit(a) && IsDigit(b);
    assert s == si + [a] && t == ti + [b];
    if Decimal(si) < Decimal(ti) {
      ValueOrderIsStringOrder(si, ti);
      LessBeforeSuffix(si, ti, [a], [b]);
    } else {
      SameValueSameDigits(si, ti);
      LessAfterPrefix(si, [a], [b]);
    }
  }

  lemma {:induction false} FewDigits(n: nat, width: nat)
    requires width > 0 && n < Power10(width)
    ensures |Itoa(n)| <= width
  {
    assert Power10(width) == 10 * Power10(width - 1);
    if n >= 10 {
      FewDigits(n / 10, width - 1);
    }
  }

  function Power10(n: nat): (r: nat)
  {
    if n == 0 then 1 else 10 * Power10(n - 1)
  }

  // --- keys --------------------------------------------------------------------------------

  /** What four zero-padded digits can order. */
  const MAX_STEPS: nat := 9999

  function RunsPrefix(prefix: string): (s: string)
  {
    if prefix == "" then "runs/" else prefix + "/runs/"
  }

  function RunPrefix(prefix: string, id: string): (s: string)
  {
    RunsPrefix(prefix) + id + "/"
  }

  function RecordKey(prefix: string, id: string): (s: string)
  {
    RunPrefix(prefix, id) + "record.json"
  }

  function StepsPrefix(prefix: string, id: string): (s: string)
  {
    RunPrefix(prefix, id) + "steps/"
  }

  function StepKey(prefix: string, id: string, n: nat): (s: string)
  {
    StepsPrefix(prefix, id) + Padded(Itoa(n), 4) + ".json"
  }

  /** Where objects lie: under the store's own prefix, if it has one, in a directory for each run. */
  lemma KeyLayout(prefix: string, id: string, n: nat)
    ensures RecordKey(prefix, id) == (if prefix == "" then "" else prefix + "/") + "runs/" + id + "/record.json"
    ensures StepKey(prefix, id, n)
         == (if prefix == "" then "" else prefix + "/") + "runs/" + id + "/steps/" + Padded(Itoa(n), 4) + ".json"
  {
    hide Padded, Itoa;
    var top := if prefix == "" then "" else prefix + "/";
    assert top + "runs/" + id + "/" + "record.json" == top + "runs/" + id + "/record.json";
    assert top + "runs/" + id + "/" + "steps/" == top + "runs/" + id + "/steps/";
    assert prefix != "" ==> prefix + "/runs/" == top + "runs/";
  }

  lemma FourDigits(n: nat)
    requires n <= MAX_STEPS
    ensures |Padded(Itoa(n), 4)| == 4 && Decimal(Padded(Itoa(n), 4)) == n
  {
    PowersOfTen();
    FewDigits(n, 4);
    PaddedValue(Itoa(n), 4);
  }

  lemma PowersOfTen()
    ensures Power10(4) == 10000
  {
    assert Power10(2) == 100 && Power10(3) == 1000;
  }

  /** Key order is step order, up to the last number four digits can hold. */
  lemma StepKeysIncrease(prefix: string, id: string, m: nat, n: nat)
    requires m < n <= MAX_STEPS
    ensures Less(StepKey(prefix, id, m), StepKey(prefix, id, n))
  {
    FourDigits(m);
    FourDigits(n);
    var a, b, pre := Padded(Itoa(m), 4), Padded(Itoa(n), 4), StepsPrefix(prefix, id);
    ValueOrderIsStringOrder(a, b);
    LessBeforeSuffix(a, b, ".json", ".json");
    LessAfterPrefix(pre, a + ".json", b + ".json");
    assert pre + (a + ".json") == StepKey(prefix, id, m) && pre + (b + ".json") == StepKey(prefix, id, n);
  }

  lemma TenThousand()
    ensures Itoa(10000) == "1000" + "0" && Padded(Itoa(10000), 4) == "1000" + "0" && Digits("1000") && Decimal("1000") == 1000
  {
    FourDigits(1000);
    assert Itoa(10000) == Itoa(1000) + "0";
    assert |Itoa(1000)| == 4 by {
      assert Itoa(10) == "10" && Itoa(100) == Itoa(10) + "0" && Itoa(1000) == Itoa(100) + "0";
    }
    assert Itoa(1000) == "1000" by {
      assert Itoa(10) == "10" && Itoa(100) == Itoa(10) + "0" && Itoa(1000) == Itoa(100) + "0";
    }
  }

  /** One more step and the order breaks: number ten thousand sorts before every number above one thousand. */
  lemma FiveDigitsSortWrong(prefix: string, id: string, n: nat)
    requires n <= MAX_STEPS
    ensures Less(StepKey(prefix, id, MAX_STEPS + 1), StepKey(prefix, id, n)) <==> n > 1000
  {
    hide Padded, Itoa, Decimal;
    TenThousand();
    FourDigits(n);
    var b, pre := Padded(Itoa(n), 4), StepsPrefix(prefix, id);
    LessAfterPrefix(pre, "1000" + "0.json", b + ".json");
    assert pre + ("1000" + "0.json") == StepKey(prefix, id, MAX_STEPS + 1) && pre + (b + ".json") == StepKey(prefix, id, n);
    if n > 1000 {
      ValueOrderIsStringOrder("1000", b);
      LessBeforeSuffix("1000", b, "0.json", ".json");
    } else if n == 1000 {
      SameValueSameDigits("1000", b);
      LessAfterPrefix("1000", "0.json", ".json");
    } else {
      ValueOrderIsStringOrder(b, "1000");
      LessBeforeSuffix(b, "1000", ".json", "0.json");
      LessIsTotal("1000" + "0.json", b + ".json");
    }
  }

  /** An id that is one path element. */
  predicate PlainId(id: string)
  {
    '/' !in id
  }

  lemma {:induction false} FirstElement(id: string, other: string, rest: string)
    requires PlainId(id) && PlainId(other)
    requires id + "/" <= other + "/" + rest
    ensures id == other
  {
    var key := other + "/" + rest;
    assert (id + "/")[0] == key[0];
    assert id != "" ==> id[0] in id;
    assert other != "" ==> other[0] in other;
    if id != "" {
      assert (id + "/")[1..] == id[1..] + "/" && key[1..] == other[1..] + "/" + rest;
      FirstElement(id[1..], other[1..], rest);
      assert id == [id[0]] + id[1..] && other == [other[0]] + other[1..];
    }
  }

  lemma PrefixCancels(r: string, a: string, b: string)
    ensures r + a <= r + b <==> a <= b
  {
    assert (r + a)[|r|..] == a && (r + b)[|r|..] == b;
    if r + a <= r + b {
      assert forall i :: 0 <= i < |a| ==> a[i] == (r + a)[|r| + i] == (r + b)[|r| + i] == b[i];
    }
    if a <= b {
      assert forall i :: 0 <= i < |r + a| ==> (r + a)[i] == (r + b)[i];
    }
  }

  /** Keys of different runs lie under different prefixes when ids are single path elements. */
  lemma RunPrefixesDiffer(prefix: string, id: string, other: string, rest: string)
    requires PlainId(id) && PlainId(other)
    requires RunPrefix(prefix, id) <= RunPrefix(prefix, other) + rest
    ensures id == other
  {
    var r := RunsPrefix(prefix);
    var mine, key := id + "/", other + "/" + rest;
    assert RunPrefix(prefix, id) == r + mine && RunPrefix(prefix, other) + rest == r + key;
    PrefixCancels(r, mine, key);
    FirstElement(id, other, rest);
  }

  /** A record key never looks like a step key of its own run. */
  lemma RecordIsNoStep(prefix: string, id: string)
    ensures !(StepsPrefix(prefix, id) <= RecordKey(prefix, id))
  {
    var n := |RunPrefix(prefix, id)|;
    assert StepsPrefix(prefix, id)[n] == 's' && RecordKey(prefix, id)[n] == 'r';
  }

  lemma LastSlash(x: string, short: string, name: string)
    requires x != "" && x[|x| - 1] == '/' && '/' !in name
    ensures x <= short + name <==> x <= short
  {
    var last := |x| - 1;
    if |short| <= last < |short + name| {
      assert (short + name)[last] == name[last - |short|];
      assert name[last - |short|] in name;
    }
  }

  /**
   * The record of a run lies among another run's steps exactly when its id continues the other's with a
   * "steps" element, which takes a slash: no id of one path element does.
   */
  lemma SlashedIdIntrudes(prefix: string, id: string, other: string)
    ensures StepsPrefix(prefix, id) <= RecordKey(prefix, other) <==> id + "/steps/" <= other + "/"
    ensures StepsPrefix(prefix, id) <= RecordKey(prefix, other) ==> !PlainId(other)
  {
    var r, mine, short := RunsPrefix(prefix), id + "/steps/", other + "/";
    assert StepsPrefix(prefix, id) == r + mine && RecordKey(prefix, other) == r + (short + "record.json");
    PrefixCancels(r, mine, short + "record.json");
    LastSlash(mine, short, "record.json");
    if mine <= short {
      assert mine[|id|] == '/' == short[|id|] && |id| < |other|;
      assert other[|id|] in other;
    }
  }
}
