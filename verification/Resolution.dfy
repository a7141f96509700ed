/** What resolution promises: it narrows, it accounts for every loss, it closes, and once is enough. */
module Resolution {
  import opened Basics
  import opened GoStrings
  import opened VersionRanges
  import opened Packs
  import opened Resolve

  // --- one rule kind ---------------------------------------------------------------

  ghost predicate Distinct(keys: seq<Key>)
  {
    forall i, j :: 0 <= i < j < |keys| ==> keys[i].id != keys[j].id
  }

  ghost predicate KeptIndex(keys: seq<Key>, version: string, n: nat, i: int)
    requires n <= |keys|
  {
    0 <= i < n && Kept(keys, version, i)
  }

  lemma KeptOncePerId(keys: seq<Key>, version: string, i: nat, j: nat)
    requires i < j < |keys| && Kept(keys, version, i) && Kept(keys, version, j)
    ensures keys[i].id != keys[j].id
  {
    hide AppliesTo;
    hide Blank;
  }

  /** `x` is one of the first `n` rules that are kept. */
  ghost predicate FromKept<T(!new)>(rules: seq<T>, keys: seq<Key>, version: string, n: nat, x: T)
    requires n <= |rules| == |keys|
  {
    exists i :: KeptIndex(keys, version, n, i) && rules[i] == x
  }

  lemma {:induction false} ChosenMembers<T(!new)>(rules: seq<T>, keys: seq<Key>, version: string, n: nat)
    requires n <= |rules| == |keys|
    ensures forall x :: x in Chosen(rules, keys, version, n) <==> FromKept(rules, keys, version, n, x)
  {
    hide Kept;
    if n > 0 {
      ChosenMembers(rules, keys, version, n - 1);
      var init, out := Chosen(rules, keys, version, n - 1), Chosen(rules, keys, version, n);
      forall x ensures x in out <==> FromKept(rules, keys, version, n, x) {
        if i :| KeptIndex(keys, version, n - 1, i) && rules[i] == x {
          assert KeptIndex(keys, version, n, i);
        }
        if Kept(keys, version, n - 1) && x == rules[n - 1] {
          assert KeptIndex(keys, version, n, n - 1);
        }
        if i :| KeptIndex(keys, version, n, i) && rules[i] == x {
          assert i == n - 1 || KeptIndex(keys, version, n - 1, i);
        }
      }
    }
  }

  /** Nothing is added and nothing is reordered. */
  lemma {:induction false} ChosenNarrows<T(!new)>(rules: seq<T>, keys: seq<Key>, version: string, n: nat)
    requires n <= |rules| == |keys|
    ensures Subsequence(Chosen(rules, keys, version, n), rules[..n])
  {
    hide Kept;
    if n > 0 {
      ChosenNarrows(rules, keys, version, n - 1);
      var init, out, all := Chosen(rules, keys, version, n - 1), Chosen(rules, keys, version, n), rules[..n];
      assert all[..|all| - 1] == rules[..n - 1] && all[|all| - 1] == rules[n - 1];
      if Kept(keys, version, n - 1) {
        assert out[..|out| - 1] == init;
      } else {
        assert out == init;
      }
    }
  }

  lemma {:induction false} ChosenDistinct<T(!new)>(rules: seq<T>, key: T -> Key, version: string, n: nat)
    requires n <= |rules|
    ensures Distinct(Keys(Chosen(rules, Keys(rules, key), version, n), key))
  {
    hide Kept;
    if n > 0 {
      var keys := Keys(rules, key);
      ChosenDistinct(rules, key, version, n - 1);
      ChosenMembers(rules, keys, version, n - 1);
      var init := Chosen(rules, keys, version, n - 1);
      if Kept(keys, version, n - 1) {
        forall k | 0 <= k < |init| ensures key(init[k]).id != keys[n - 1].id {
          assert FromKept(rules, keys, version, n - 1, init[k]);
          var i :| KeptIndex(keys, version, n - 1, i) && rules[i] == init[k];
          KeptOncePerId(keys, version, i, n - 1);
        }
      }
    }
  }

  /** What survives carries distinct ids and applies to the version. */
  lemma ResolvedRulesSettled<T(!new)>(rules: seq<T>, key: T -> Key, version: string)
    ensures Settled(Keys(ResolvedRules(rules, key, version), key), version)
  {
    hide AppliesTo;
    var keys, out := Keys(rules, key), ResolvedRules(rules, key, version);
    ChosenDistinct(rules, key, version, |rules|);
    ChosenMembers(rules, keys, version, |rules|);
    forall k | 0 <= k < |out| ensures AppliesTo(key(out[k]).range, version) {
      assert FromKept(rules, keys, version, |rules|, out[k]);
      var i :| KeptIndex(keys, version, |rules|, i) && rules[i] == out[k];
    }
  }

  /** Nothing is left for resolution to decide about these declarations. */
  ghost predicate Settled(keys: seq<Key>, version: string)
  {
    Distinct(keys) && forall i :: 0 <= i < |keys| ==> AppliesTo(keys[i].range, version)
  }

  lemma SettledIsLone(keys: seq<Key>, version: string, i: nat)
    requires Settled(keys, version) && i < |keys|
    ensures Lone(keys, i) && Kept(keys, version, i)
  {
    hide AppliesTo;
  }

  lemma {:induction false} SettledUnchanged<T(!new)>(rules: seq<T>, keys: seq<Key>, kind: string, version: string, n: nat)
    requires n <= |rules| == |keys| && Settled(keys, version)
    ensures Chosen(rules, keys, version, n) == rules[..n]
    ensures SkippedRules(keys, kind, version, n) == []
  {
    hide AppliesTo;
    hide Kept;
    if n > 0 {
      SettledIsLone(keys, version, n - 1);
      SettledUnchanged(rules, keys, kind, version, n - 1);
    }
  }

  lemma SettledRules<T(!new)>(rules: seq<T>, key: T -> Key, kind: string, version: string)
    requires Settled(Keys(rules, key), version)
    ensures ResolvedRules(rules, key, version) == rules
    ensures SkippedOf(rules, key, kind, version) == []
    ensures VariantGaps(Keys(rules, key), kind, version) == multiset{}
  {
    var keys := Keys(rules, key);
    hide AppliesTo;
    hide Blank;
    hide Kept;
    SettledUnchanged(rules, keys, kind, version, |rules|);
    forall i: nat | i < |keys| ensures Lone(keys, i) {
      SettledIsLone(keys, version, i);
    }
    assert Repeated(keys, |keys|) == {};
    assert Unplaced(keys, version) == {};
    assert UnknownGaps(kind, {}) == {} && MissingGaps(kind, {}, version) == {};
  }

  // --- accounting for one rule kind -----------------------------------------------------

  lemma {:induction false} SkippedMembers(keys: seq<Key>, kind: string, version: string, n: nat, note: Note)
    requires n <= |keys|
    ensures note in SkippedRules(keys, kind, version, n)
            <==> exists i :: 0 <= i < n && SkipsAt(keys, kind, version, i, note)
  {
    hide AppliesTo;
    if n > 0 {
      SkippedMembers(keys, kind, version, n - 1, note);
      assert note in SkippedRules(keys, kind, version, n)
             <==> note in SkippedRules(keys, kind, version, n - 1) || SkipsAt(keys, kind, version, n - 1, note);
    }
  }

  ghost predicate SkipsAt(keys: seq<Key>, kind: string, version: string, i: int, note: Note)
    requires 0 <= i < |keys|
  {
    Lone(keys, i) && !AppliesTo(keys[i].range, version) && note == Note(kind, keys[i].id)
  }

  /** The report names this id, in the shared gap or in one of its own. */
  ghost predicate NamedIn(skipped: seq<Note>, gaps: multiset<Gap>, kind: string, id: string, version: string)
  {
    Note(kind, id) in skipped || NoVariant(kind, id, version) in gaps || VersionUnknown(kind, id) in gaps
  }

  lemma KeptIds<T(!new)>(rules: seq<T>, key: T -> Key, version: string, id: string)
    ensures id in Ids(Keys(ResolvedRules(rules, key, version), key))
            <==> exists i :: KeptIndex(Keys(rules, key), version, |rules|, i) && key(rules[i]).id == id
  {
    hide Kept;
    var keys, out := Keys(rules, key), ResolvedRules(rules, key, version);
    var outKeys := Keys(out, key);
    ChosenMembers(rules, keys, version, |rules|);
    if id in Ids(outKeys) {
      var k :| 0 <= k < |outKeys| && outKeys[k].id == id;
      assert FromKept(rules, keys, version, |rules|, out[k]);
      var i :| KeptIndex(keys, version, |rules|, i) && rules[i] == out[k];
    }
    if i :| KeptIndex(keys, version, |rules|, i) && key(rules[i]).id == id {
      assert FromKept(rules, keys, version, |rules|, rules[i]);
      var k :| 0 <= k < |out| && out[k] == rules[i];
      assert outKeys[k] in outKeys;
    }
  }

  /** An id is kept exactly when some declaration of it applies and, if there are several, a version is given. */
  lemma KeptIdMeaning(keys: seq<Key>, version: string, id: string)
    ensures (exists i :: KeptIndex(keys, version, |keys|, i) && keys[i].id == id)
            <==> AppliesBefore(keys, version, id, |keys|) && (id in Repeated(keys, |keys|) ==> !Blank(version))
  {
    hide AppliesTo;
    hide Blank;
    if AppliesBefore(keys, version, id, |keys|) && (id in Repeated(keys, |keys|) ==> !Blank(version)) {
      var i := FirstApplying(keys, version, id);
      assert !Lone(keys, i) ==> id in Repeated(keys, |keys|);
      assert KeptIndex(keys, version, |keys|, i);
    }
    if i :| KeptIndex(keys, version, |keys|, i) && keys[i].id == id {
      if id in Repeated(keys, |keys|) {
        var j: nat :| j < |keys| && !Lone(keys, j) && keys[j].id == id;
        assert !Lone(keys, i);
      }
    }
  }

  lemma FirstApplying(keys: seq<Key>, version: string, id: string) returns (i: nat)
    requires AppliesBefore(keys, version, id, |keys|)
    ensures i < |keys| && keys[i].id == id && AppliesTo(keys[i].range, version) && !AppliesBefore(keys, version, id, i)
  {
    hide AppliesTo;
    i := 0;
    while !(keys[i].id == id && AppliesTo(keys[i].range, version))
      invariant i < |keys| && !AppliesBefore(keys, version, id, i)
      decreases |keys| - i
    {
      assert !AppliesBefore(keys, version, id, i + 1);
      i := i + 1;
    }
  }

  lemma GapMembers(keys: seq<Key>, kind: string, version: string, id: string)
    ensures NoVariant(kind, id, version) in VariantGaps(keys, kind, version)
            <==> !Blank(version) && id in Unplaced(keys, version)
    ensures VersionUnknown(kind, id) in VariantGaps(keys, kind, version)
            <==> Blank(version) && id in Repeated(keys, |keys|)
    ensures forall g :: g in VariantGaps(keys, kind, version) ==> !g.NotApplicable? && g.kind == kind
  {
    hide AppliesTo;
    hide Blank;
  }

  /** No rule is lost silently and none is reported lost that is still there. */
  lemma RulesAccounted<T(!new)>(rules: seq<T>, key: T -> Key, kind: string, version: string, id: string)
    ensures NamedIn(SkippedOf(rules, key, kind, version), VariantGaps(Keys(rules, key), kind, version), kind, id, version)
            <==> id in Ids(Keys(rules, key)) && id !in Ids(Keys(ResolvedRules(rules, key, version), key))
  {
    hide AppliesTo;
    hide Blank;
    var keys := Keys(rules, key);
    SkippedMembers(keys, kind, version, |keys|, Note(kind, id));
    GapMembers(keys, kind, version, id);
    KeptIds(rules, key, version, id);
    KeptIdMeaning(keys, version, id);
    if id in Ids(keys) {
      var k :| k in keys && k.id == id;
      var i :| 0 <= i < |keys| && keys[i] == k;
      if Lone(keys, i) {
        LoneNotRepeated(keys, i);
        assert AppliesBefore(keys, version, id, |keys|) <==> AppliesTo(keys[i].range, version);
        assert SkipsAt(keys, kind, version, i, Note(kind, id)) <==> !AppliesTo(keys[i].range, version);
      } else {
        assert id in Repeated(keys, |keys|);
      }
    } else {
      NotDeclaredNotRepeated(keys, id);
    }
  }

  lemma LoneNotRepeated(keys: seq<Key>, i: nat)
    requires i < |keys| && Lone(keys, i)
    ensures keys[i].id !in Repeated(keys, |keys|)
  {
  }

  lemma NotDeclaredNotRepeated(keys: seq<Key>, id: string)
    requires id !in Ids(keys)
    ensures id !in Repeated(keys, |keys|)
    ensures forall i :: 0 <= i < |keys| ==> keys[i].id != id
  {
    forall i | 0 <= i < |keys| ensures keys[i].id != id {
      assert keys[i] in keys;
    }
  }
}
