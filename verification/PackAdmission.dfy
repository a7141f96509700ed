/** What the check at load buys at resolution. */
module PackAdmission {
  import opened Basics
  import opened GoStrings
  import opened VersionRanges
  import opened Overlap
  import opened Packs
  import opened Validate
  import opened Resolve
  import opened Resolution
  import opened StepResolution
  import opened PackResolution

  // --- variants -------------------------------------------------------------------

  /** Admitted variants never compete: for any version one can read, at most one declaration applies. */
  lemma AtMostOneVariantApplies(keys: seq<Key>, version: string, i: nat, j: nat)
    requires VariantsOk(keys) && Parseable(version)
    requires i < |keys| && j < |keys| && keys[i].id == keys[j].id
    requires AppliesTo(keys[i].range, version) && AppliesTo(keys[j].range, version)
    ensures i == j
  {
    hide AppliesTo, Overlapping, Parseable;
    if i != j {
      var a, b := if i < j then i else j, if i < j then j else i;
      assert !Clash(keys[a].range, keys[b].range);
      DisjointNeverBothApply(keys[a].range, keys[b].range, version);
      assert false;
    }
  }

  /** What a refused variant is refused for: the first declaration it cannot stand beside, and why it cannot. */
  lemma ClashMeaning(ranges: seq<string>, range: string, i: nat)
    requires FirstClash(ranges, range, i)
    ensures i < |ranges| && (forall j :: 0 <= j < i ==> !Blank(ranges[j]) && !Blank(range) && !Overlapping(ranges[j], range))
    ensures ClashCode(ranges[i], range) == "MAS-5001" ==> Blank(ranges[i]) || Blank(range)
    ensures ClashCode(ranges[i], range) != "MAS-5001" ==>
              ClashCode(ranges[i], range) == "MAS-5016" && !Blank(ranges[i]) && !Blank(range) && Overlapping(ranges[i], range)
  {
    hide Blank, Overlapping;
  }

  /** The rules that apply, with no thought for variants. */
  function Applying<T>(rules: seq<T>, keys: seq<Key>, version: string, n: nat): (out: seq<T>)
    requires n <= |rules| == |keys|
  {
    if n == 0 then []
    else Applying(rules, keys, version, n - 1) + (if AppliesTo(keys[n - 1].range, version) then [rules[n - 1]] else [])
  }

  lemma {:induction false} ChosenIsApplying<T(!new)>(rules: seq<T>, keys: seq<Key>, version: string, n: nat)
    requires n <= |rules| == |keys| && VariantsOk(keys) && Parseable(version)
    ensures Chosen(rules, keys, version, n) == Applying(rules, keys, version, n)
  {
    hide AppliesTo, Parseable, Blank, VariantsOk;
    if n > 0 {
      ChosenIsApplying(rules, keys, version, n - 1);
      if AppliesTo(keys[n - 1].range, version) && AppliesBefore(keys, version, keys[n - 1].id, n - 1) {
        var j :| 0 <= j < n - 1 && keys[j].id == keys[n - 1].id && AppliesTo(keys[j].range, version);
        AtMostOneVariantApplies(keys, version, j, n - 1);
      }
      ParseableNotBlank(version);
    }
  }

  lemma ParseableNotBlank(version: string)
    requires Parseable(version)
    ensures !Blank(version)
  {
    BlankIsUnreadable(version);
  }

  /** On an admitted pack the variant bookkeeping is a plain filter: order of declaration is irrelevant. */
  lemma ResolvingIsFiltering<T(!new)>(rules: seq<T>, key: T -> Key, version: string)
    requires VariantsOk(Keys(rules, key)) && Parseable(version)
    ensures ResolvedRules(rules, key, version) == Applying(rules, Keys(rules, key), version, |rules|)
  {
    ChosenIsApplying(rules, Keys(rules, key), version, |rules|);
  }

  /**
   * A version string that is given but cannot be read makes every variant apply, so the first
   * declaration of each id is taken rather than none.
   */
  lemma UnreadableVersionTakesFirst(keys: seq<Key>, version: string, i: nat)
    requires !Blank(version) && !Parseable(version) && i < |keys|
    ensures Kept(keys, version, i) <==> forall j :: 0 <= j < i ==> keys[j].id != keys[i].id
  {
    forall k | 0 <= k < |keys| ensures AppliesTo(keys[k].range, version) {
      BlankAppliesEverywhere(keys[k].range, version);
    }
    hide AppliesTo, Parseable, Blank;
  }

  // --- resolution keeps a pack admissible -------------------------------------------

  lemma {:induction false} SubsequenceMembers<T(!new)>(r: seq<T>, s: seq<T>)
    requires Subsequence(r, s)
    ensures forall x :: x in r ==> x in s
    decreases |s|
  {
    if r != [] {
      var si, ri := s[..|s| - 1], r[..|r| - 1];
      if Subsequence(r, si) {
        SubsequenceMembers(r, si);
      } else {
        SubsequenceMembers(ri, si);
        assert r == ri + [r[|r| - 1]];
      }
    }
  }

  /** Leaving declarations out cannot create a clash. */
  lemma {:induction false} VariantsSurviveNarrowing<T(!new)>(r: seq<T>, s: seq<T>, key: T -> Key)
    requires Subsequence(r, s) && VariantsOk(Keys(s, key))
    ensures VariantsOk(Keys(r, key))
    decreases |s|
  {
    hide Clash;
    if r != [] {
      var si, ri := s[..|s| - 1], r[..|r| - 1];
      var keys := Keys(s, key);
      assert Keys(si, key) == keys[..|si|];
      VariantsOkPrefix(keys, |si|);
      if Subsequence(r, si) {
        VariantsSurviveNarrowing(r, si, key);
      } else {
        VariantsSurviveNarrowing(ri, si, key);
        SubsequenceMembers(ri, si);
        var last := r[|r| - 1];
        forall i | 0 <= i < |ri| && key(ri[i]).id == key(last).id ensures !Clash(key(ri[i]).range, key(last).range) {
          assert ri[i] in si;
          var j :| 0 <= j < |si| && si[j] == ri[i];
          assert keys[j] == key(ri[i]) && keys[|si|] == key(last);
        }
        LastKey(r, key);
        forall i, j | 0 <= i < j < |r| && key(r[i]).id == key(r[j]).id ensures !Clash(key(r[i]).range, key(r[j]).range) {
          if j < |ri| {
            assert Keys(ri, key)[i] == key(r[i]) && Keys(ri, key)[j] == key(r[j]);
          }
        }
      }
    }
  }

  lemma LastKey<T>(r: seq<T>, key: T -> Key)
    requires r != []
    ensures forall i :: 0 <= i < |r| - 1 ==> r[..|r| - 1][i] == r[i]
  {
  }

  lemma AdmittedSurvivesNarrowing<T(!new)>(r: seq<T>, s: seq<T>, key: T -> Key, ok: T -> bool)
    requires Subsequence(r, s) && Admitted(s, key, ok)
    ensures Admitted(r, key, ok)
  {
    hide VariantsOk;
    VariantsSurviveNarrowing(r, s, key);
    SubsequenceMembers(r, s);
    forall i | 0 <= i < |r| ensures ok(r[i]) {
      assert r[i] in s;
    }
  }

  lemma RulesNarrow<T(!new)>(rules: seq<T>, key: T -> Key, version: string)
    ensures Subsequence(ResolvedRules(rules, key, version), rules)
  {
    ChosenNarrows(rules, Keys(rules, key), version, |rules|);
    assert rules[..|rules|] == rules;
  }

  /** A playbook that was admitted and can still conclude is admitted against what the pack has left. */
  lemma TrimmedPlaybookOk(p: Pack, compiles: string -> bool, version: string, x: Playbook)
    requires Admissible(p, compiles) && x in ResolvedPack(p, version).playbooks
    ensures var q := ResolvedPack(p, version); PlaybookOk(x, SignalIds(q), ModeIds(q))
  {
    hide RangeOk, RefsResolve, BranchOk, Admissible, VariantsOk, ResolvedSteps, ResolvedRules, Survives;
    var q, scope := ResolvedPack(p, version), ScopeOf(p, version);
    var pb := ResolvedPlaybookOrigin(p, version, x);
    AdmittedSteps(p, compiles, pb);
    StepsNarrow(pb.steps, scope);
    VariantsSurviveNarrowing(x.steps, pb.steps, StepKey);
    ResolvedIsClosed(p, version);
    assert ClosedPlaybook(x, SignalIds(q), ModeIds(q));
    SubsequenceMembers(x.steps, pb.steps);
    forall i | 0 <= i < |x.steps| ensures StepCheck(SignalIds(q), ModeIds(q))(x.steps[i]) {
      assert x.steps[i] in x.steps && x.steps[i] in pb.steps;
    }
  }

  /** Resolution takes admitted packs to admitted packs. */
  lemma ResolvedStaysAdmissible(p: Pack, compiles: string -> bool, version: string)
    requires Admissible(p, compiles)
    ensures Admissible(ResolvedPack(p, version), compiles)
  {
    hide Admitted, PlaybookOk, ResolvedRules, RangeOk, ResolvedSteps;
    var q := ResolvedPack(p, version);
    RulesNarrow(p.signals, SignalKey, version);
    AdmittedSurvivesNarrowing(q.signals, p.signals, SignalKey, SignalOk);
    RulesNarrow(p.logPatterns, PatternKey, version);
    AdmittedSurvivesNarrowing(q.logPatterns, p.logPatterns, PatternKey, PatternCheck(compiles));
    RulesNarrow(p.failureModes, ModeKey, version);
    AdmittedSurvivesNarrowing(q.failureModes, p.failureModes, ModeKey, ModeOk);
    RulesNarrow(p.inspect, InspectKey, version);
    AdmittedSurvivesNarrowing(q.inspect, p.inspect, InspectKey, InspectOk);
    var check := PlaybookCheck(SignalIds(q), ModeIds(q));
    forall x | x in q.playbooks ensures check(x) {
      TrimmedPlaybookOk(p, compiles, version, x);
    }
    var rules := ResolvedRules(p.playbooks, PlaybookKey, version);
    ResolvedRulesSettled(p.playbooks, PlaybookKey, version);
    PlaybooksStaySettled(rules, ScopeOf(p, version), version);
    DistinctAdmits(q.playbooks, PlaybookKey, check, version);
  }

  lemma DistinctAdmits<T(!new)>(rules: seq<T>, key: T -> Key, ok: T -> bool, version: string)
    requires Settled(Keys(rules, key), version) && forall x :: x in rules ==> ok(x)
    ensures Admitted(rules, key, ok)
  {
    hide AppliesTo, Clash;
  }

  /** For a version one can read, no step id occurs twice in a playbook of an admitted pack's projection. */
  lemma ResolvedStepsDiffer(p: Pack, compiles: string -> bool, version: string, x: Playbook)
    requires Admissible(p, compiles) && Parseable(version) && x in ResolvedPack(p, version).playbooks
    ensures Distinct(Keys(x.steps, StepKey))
  {
    hide Admissible, ResolvedPack, AppliesTo, Parseable, VariantsOk, RangeOk;
    TrimmedPlaybookOk(p, compiles, version, x);
    var keys := Keys(x.steps, StepKey);
    forall i, j | 0 <= i < j < |keys| ensures keys[i].id != keys[j].id {
      if keys[i].id == keys[j].id {
        EveryStepApplies(p, version, x, x.steps[i]);
        EveryStepApplies(p, version, x, x.steps[j]);
        AtMostOneVariantApplies(keys, version, i, j);
      }
    }
  }

  // --- packs that say nothing about versions ------------------------------------------

  ghost predicate UnscopedKeys(keys: seq<Key>)
  {
    forall i :: 0 <= i < |keys| ==> Blank(keys[i].range)
  }

  ghost predicate Unscoped(p: Pack)
  {
    && UnscopedKeys(Keys(p.signals, SignalKey)) && UnscopedKeys(Keys(p.logPatterns, PatternKey))
    && UnscopedKeys(Keys(p.failureModes, ModeKey)) && UnscopedKeys(Keys(p.playbooks, PlaybookKey))
    && UnscopedKeys(Keys(p.inspect, InspectKey))
    && forall pb :: pb in p.playbooks ==> UnscopedKeys(Keys(pb.steps, StepKey))
  }

  lemma UnscopedSettled(keys: seq<Key>, version: string)
    requires VariantsOk(keys) && UnscopedKeys(keys)
    ensures Settled(keys, version)
  {
    hide AppliesTo, Blank, Overlapping;
    forall i | 0 <= i < |keys| ensures AppliesTo(keys[i].range, version) {
      BlankAppliesEverywhere(keys[i].range, version);
    }
    forall i, j | 0 <= i < j < |keys| ensures keys[i].id != keys[j].id {
      assert Clash(keys[i].range, keys[j].range);
    }
  }

  lemma UnscopedRules<T(!new)>(rules: seq<T>, key: T -> Key, ok: T -> bool, kind: string, version: string)
    requires Admitted(rules, key, ok) && UnscopedKeys(Keys(rules, key))
    ensures ResolvedRules(rules, key, version) == rules
    ensures SkippedOf(rules, key, kind, version) == []
    ensures VariantGaps(Keys(rules, key), kind, version) == multiset{}
  {
    hide VariantsOk, ResolvedRules, SkippedOf, VariantGaps, Settled, UnscopedKeys;
    UnscopedSettled(Keys(rules, key), version);
    SettledRules(rules, key, kind, version);
  }

  lemma UnscopedSteps(p: Pack, compiles: string -> bool, version: string, pb: Playbook)
    requires Admissible(p, compiles) && Unscoped(p) && pb in p.playbooks
    ensures var scope := Scope(version, SignalIds(p), ModeIds(p));
            ResolvedSteps(pb.steps, scope) == pb.steps && DroppedSteps(pb.steps, scope) == []
  {
    hide RangeOk, RefsResolve, BranchOk, AppliesTo, ResolvedSteps, DroppedSteps, Blank;
    AdmittedSteps(p, compiles, pb);
    var scope := Scope(version, SignalIds(p), ModeIds(p));
    var keys := Keys(pb.steps, StepKey);
    assert UnscopedKeys(keys);
    forall st | st in pb.steps ensures Survives(st, scope) {
      var i :| 0 <= i < |pb.steps| && pb.steps[i] == st;
      assert keys[i].range == st.versionRange;
      BlankAppliesEverywhere(st.versionRange, version);
    }
    SurvivorsStay(pb.steps, scope);
  }

  /**
   * An admitted pack without version ranges comes back with the same rules and no gap exactly when
   * every playbook has a step that concludes; one that has none is dropped even so.
   */
  lemma UnscopedPackUnchanged(p: Pack, compiles: string -> bool, version: string)
    requires Admissible(p, compiles) && Unscoped(p)
    ensures ResolvedPack(p, version) == p.(metadata := p.metadata.(resolvedFor := version))
            <==> forall pb :: pb in p.playbooks ==> CanConclude(pb.steps)
    ensures ResolutionGaps(p, version) == multiset{}
            <==> forall pb :: pb in p.playbooks ==> CanConclude(pb.steps)
  {
    hide Admitted, ResolvedRules, SkippedOf, VariantGaps, ResolvedSteps, DroppedSteps, UnscopedKeys, CanConclude, HeaderOk;
    UnscopedRules(p.signals, SignalKey, SignalOk, "signal", version);
    UnscopedRules(p.logPatterns, PatternKey, PatternCheck(compiles), "logPattern", version);
    UnscopedRules(p.failureModes, ModeKey, ModeOk, "failureMode", version);
    UnscopedRules(p.inspect, InspectKey, InspectOk, "inspect", version);
    UnscopedRules(p.playbooks, PlaybookKey, PlaybookCheck(SignalIds(p), ModeIds(p)), "playbook", version);
    var scope := Scope(version, SignalIds(p), ModeIds(p));
    assert ScopeOf(p, version) == scope;
    forall pb | pb in p.playbooks ensures ResolvedSteps(pb.steps, scope) == pb.steps && DroppedSteps(pb.steps, scope) == [] {
      UnscopedSteps(p, compiles, version, pb);
    }
    UnchangedPlaybooks(p.playbooks, scope);
    assert Itemised(p, version) == multiset{};
  }

  /** A pack whose one playbook reports what it finds and never concludes. */
  function Reporting(): (p: Pack)
  {
    var said := Text("t", "t");
    var st := Step("check", "", None, "true", Some(Branch(Some(StepFinding("", 1.0, said, said)), Text("", ""), false)),
                   None, None);
    Pack(API_VERSION, KIND, Metadata("m", "n", "1", "", ""), [], [], [], [Playbook("look", "", said, [st])], [])
  }

  lemma SaidIsComplete()
    ensures Text("t", "t").Complete() && Text("", "").Empty()
  {
    assert TrimLeft("t") == "t" && TrimRight("t") == "t";
  }

  lemma EmptyRangeIsOk()
    ensures RangeOk("") && Blank("")
  {
  }

  /** Such packs exist: this one is admitted, names no version anywhere, and still loses its playbook. */
  lemma UnscopedPackCanLoseAPlaybook(compiles: string -> bool, version: string)
    ensures Admissible(Reporting(), compiles) && Unscoped(Reporting())
    ensures ResolvedPack(Reporting(), version).playbooks == [] && ResolutionGaps(Reporting(), version) != multiset{}
  {
    hide ResolutionGaps, ResolvedRules, ResolvedPlaybooks, Admitted, HeaderOk;
    ReportingIsAdmissible(compiles);
    var p := Reporting();
    assert p.playbooks[0] in p.playbooks && !CanConclude(p.playbooks[0].steps);
    UnscopedPackUnchanged(p, compiles, version);
    UnscopedRules(p.playbooks, PlaybookKey, PlaybookCheck(SignalIds(p), ModeIds(p)), "playbook", version);
    NothingConcludes(p.playbooks, ScopeOf(p, version));
  }

  lemma NothingConcludes(playbooks: seq<Playbook>, scope: Scope)
    requires forall pb :: pb in playbooks ==> !CanConclude(pb.steps)
    ensures ResolvedPlaybooks(playbooks, scope) == []
  {
    hide ResolvedSteps, ResolvedPlaybooks;
    var out := ResolvedPlaybooks(playbooks, scope);
    PlaybookMembers(playbooks, scope);
    if out != [] {
      assert out[0] in out && TrimOf(out[0], playbooks, scope);
      var pb :| pb in playbooks && out[0] == Trimmed(pb, scope) && CanConclude(out[0].steps);
      var i :| 0 <= i < |out[0].steps| && out[0].steps[i].conclude.Some?;
      StepStays(pb.steps, scope, out[0].steps[i]);
      assert false;
    }
  }

  lemma ReportingIsAdmissible(compiles: string -> bool)
    ensures Admissible(Reporting(), compiles) && Unscoped(Reporting())
  {
    hide RangeOk, Blank, Overlapping;
    SaidIsComplete();
    EmptyRangeIsOk();
  }

  lemma UnchangedPlaybooks(playbooks: seq<Playbook>, scope: Scope)
    requires forall pb :: pb in playbooks ==>
      ResolvedSteps(pb.steps, scope) == pb.steps && DroppedSteps(pb.steps, scope) == []
    ensures ResolvedPlaybooks(playbooks, scope) == playbooks <==> forall pb :: pb in playbooks ==> CanConclude(pb.steps)
    ensures PlaybookNotes(playbooks, scope) == [] <==> forall pb :: pb in playbooks ==> CanConclude(pb.steps)
  {
    hide ResolvedSteps, DroppedSteps, CanConclude;
    if forall pb :: pb in playbooks ==> CanConclude(pb.steps) {
      PlaybooksUnchanged(playbooks, scope);
    } else {
      InconclusiveNoted(playbooks, scope);
      PlaybookMembers(playbooks, scope);
      var pb :| pb in playbooks && !CanConclude(pb.steps);
      assert !TrimOf(pb, playbooks, scope);
    }
  }

  lemma {:induction false} InconclusiveNoted(playbooks: seq<Playbook>, scope: Scope)
    requires forall pb :: pb in playbooks ==> ResolvedSteps(pb.steps, scope) == pb.steps
    ensures forall pb :: pb in playbooks && !CanConclude(pb.steps) ==> PlaybookNotes(playbooks, scope) != []
  {
    hide ResolvedSteps, DroppedSteps, CanConclude;
    if playbooks != [] {
      var init, last := playbooks[..|playbooks| - 1], playbooks[|playbooks| - 1];
      InconclusiveNoted(init, scope);
      assert playbooks == init + [last];
    }
  }
}
