/** What resolution does to a whole pack, for every version string there is. */
module PackResolution {
  import opened Basics
  import opened VersionRanges
  import opened Packs
  import opened Validate
  import opened Resolve
  import opened Resolution
  import opened StepResolution
  import Expr

  // --- playbooks ----------------------------------------------------------------------

  function Trimmed(pb: Playbook, scope: Scope): (r: Playbook)
  {
    pb.(steps := ResolvedSteps(pb.steps, scope))
  }

  ghost predicate TrimOf(x: Playbook, playbooks: seq<Playbook>, scope: Scope)
  {
    exists pb :: pb in playbooks && x == Trimmed(pb, scope) && CanConclude(x.steps)
  }

  lemma {:induction false} PlaybookMembers(playbooks: seq<Playbook>, scope: Scope)
    ensures forall x :: x in ResolvedPlaybooks(playbooks, scope) <==> TrimOf(x, playbooks, scope)
  {
    hide ResolvedSteps, CanConclude;
    if playbooks != [] {
      var init, last := playbooks[..|playbooks| - 1], playbooks[|playbooks| - 1];
      PlaybookMembers(init, scope);
      assert playbooks == init + [last];
      forall x ensures x in ResolvedPlaybooks(playbooks, scope) <==> TrimOf(x, playbooks, scope) {
        if TrimOf(x, playbooks, scope) {
          var pb :| pb in playbooks && x == Trimmed(pb, scope) && CanConclude(x.steps);
          assert pb in init ==> TrimOf(x, init, scope);
        }
        if TrimOf(x, init, scope) {
          var pb :| pb in init && x == Trimmed(pb, scope) && CanConclude(x.steps);
          assert pb in playbooks;
        }
        assert last in playbooks;
      }
    }
  }

  lemma {:induction false} PlaybooksStaySettled(playbooks: seq<Playbook>, scope: Scope, version: string)
    requires Settled(Keys(playbooks, PlaybookKey), version)
    ensures Settled(Keys(ResolvedPlaybooks(playbooks, scope), PlaybookKey), version)
  {
    hide ResolvedSteps, CanConclude, AppliesTo;
    if playbooks != [] {
      var init, last := playbooks[..|playbooks| - 1], playbooks[|playbooks| - 1];
      var keys, initKeys := Keys(playbooks, PlaybookKey), Keys(init, PlaybookKey);
      assert forall i :: 0 <= i < |init| ==> initKeys[i] == keys[i];
      PlaybooksStaySettled(init, scope, version);
      forall i | 0 <= i < |init| ensures init[i].id != last.id {
        assert keys[i].id == init[i].id && keys[|init|].id == last.id;
      }
      TrimsKeepIds(init, scope, last.id);
    }
  }

  lemma TrimsKeepIds(playbooks: seq<Playbook>, scope: Scope, id: string)
    requires forall i :: 0 <= i < |playbooks| ==> playbooks[i].id != id
    ensures forall k :: 0 <= k < |ResolvedPlaybooks(playbooks, scope)| ==> ResolvedPlaybooks(playbooks, scope)[k].id != id
  {
    hide ResolvedSteps, CanConclude, ResolvedPlaybooks;
    PlaybookMembers(playbooks, scope);
    var out := ResolvedPlaybooks(playbooks, scope);
    forall k | 0 <= k < |out| ensures out[k].id != id {
      assert TrimOf(out[k], playbooks, scope);
      var pb :| pb in playbooks && out[k] == Trimmed(pb, scope);
    }
  }

  lemma {:induction false} PlaybooksUnchanged(playbooks: seq<Playbook>, scope: Scope)
    requires forall pb :: pb in playbooks ==>
      CanConclude(pb.steps) && ResolvedSteps(pb.steps, scope) == pb.steps && DroppedSteps(pb.steps, scope) == []
    ensures ResolvedPlaybooks(playbooks, scope) == playbooks
    ensures PlaybookNotes(playbooks, scope) == []
  {
    hide ResolvedSteps, CanConclude, DroppedSteps;
    if playbooks != [] {
      assert playbooks[|playbooks| - 1] in playbooks;
      PlaybooksUnchanged(playbooks[..|playbooks| - 1], scope);
    }
  }

  lemma TrimmedStays(playbooks: seq<Playbook>, scope: Scope)
    ensures var once := ResolvedPlaybooks(playbooks, scope);
            ResolvedPlaybooks(once, scope) == once && PlaybookNotes(once, scope) == []
  {
    hide ResolvedSteps, CanConclude, DroppedSteps;
    var once := ResolvedPlaybooks(playbooks, scope);
    PlaybookMembers(playbooks, scope);
    forall x | x in once
      ensures CanConclude(x.steps) && ResolvedSteps(x.steps, scope) == x.steps && DroppedSteps(x.steps, scope) == []
    {
      assert TrimOf(x, playbooks, scope);
      var pb :| pb in playbooks && x == Trimmed(pb, scope) && CanConclude(x.steps);
      StepsResolveOnce(pb.steps, scope);
    }
    PlaybooksUnchanged(once, scope);
  }

  // --- once is enough --------------------------------------------------------------------

  lemma RulesResolveOnce<T(!new)>(rules: seq<T>, key: T -> Key, kind: string, version: string)
    ensures var once := ResolvedRules(rules, key, version);
            && ResolvedRules(once, key, version) == once
            && SkippedOf(once, key, kind, version) == []
            && VariantGaps(Keys(once, key), kind, version) == multiset{}
  {
    ResolvedRulesSettled(rules, key, version);
    SettledRules(ResolvedRules(rules, key, version), key, kind, version);
  }

  /** Resolving a resolved pack again changes nothing and reports nothing, whatever the version string. */
  lemma ResolveIsIdempotent(p: Pack, version: string)
    ensures var once := ResolvedPack(p, version);
            ResolvedPack(once, version) == once && ResolutionGaps(once, version) == multiset{}
  {
    hide ResolvedRules, SkippedOf, VariantGaps, ResolvedPlaybooks, PlaybookNotes, Keys, Ids;
    var once := ResolvedPack(p, version);
    RulesResolveOnce(p.signals, SignalKey, "signal", version);
    RulesResolveOnce(p.logPatterns, PatternKey, "logPattern", version);
    RulesResolveOnce(p.failureModes, ModeKey, "failureMode", version);
    RulesResolveOnce(p.inspect, InspectKey, "inspect", version);
    var scope := ScopeOf(p, version);
    assert ScopeOf(once, version) == scope;
    var rules := ResolvedRules(p.playbooks, PlaybookKey, version);
    ResolvedRulesSettled(p.playbooks, PlaybookKey, version);
    PlaybooksStaySettled(rules, scope, version);
    SettledRules(once.playbooks, PlaybookKey, "playbook", version);
    TrimmedStays(rules, scope);
  }

  // --- closure ----------------------------------------------------------------------------

  /** Every reference resolves inside the pack and every playbook can still reach a verdict. */
  ghost predicate ClosedPlaybook(pb: Playbook, signals: set<string>, modes: set<string>)
  {
    && CanConclude(pb.steps)
    && forall st :: st in pb.steps ==>
         && (st.collect.Some? ==> RefsResolve(st.collect.value.args, signals))
         && (st.conclude.Some? ==> st.conclude.value.failureMode in modes)
  }

  ghost predicate Closed(p: Pack)
  {
    forall pb :: pb in p.playbooks ==> ClosedPlaybook(pb, SignalIds(p), ModeIds(p))
  }

  lemma ResolvedIsClosed(p: Pack, version: string)
    ensures Closed(ResolvedPack(p, version))
  {
    hide ResolvedRules, CanConclude, RefsResolve, ResolvedSteps;
    var q, scope := ResolvedPack(p, version), ScopeOf(p, version);
    var rules := ResolvedRules(p.playbooks, PlaybookKey, version);
    PlaybookMembers(rules, scope);
    forall x | x in q.playbooks ensures ClosedPlaybook(x, SignalIds(q), ModeIds(q)) {
      assert TrimOf(x, rules, scope);
      var pb :| pb in rules && x == Trimmed(pb, scope) && CanConclude(x.steps);
      forall st | st in x.steps
        ensures st.collect.Some? ==> RefsResolve(st.collect.value.args, SignalIds(q))
        ensures st.conclude.Some? ==> st.conclude.value.failureMode in ModeIds(q)
      {
        StepStays(pb.steps, scope, st);
      }
    }
  }

  /** Where a playbook of the resolved pack comes from. */
  lemma ResolvedPlaybookOrigin(p: Pack, version: string, x: Playbook) returns (pb: Playbook)
    requires x in ResolvedPack(p, version).playbooks
    ensures pb in p.playbooks && x == pb.(steps := ResolvedSteps(pb.steps, ScopeOf(p, version)))
    ensures CanConclude(x.steps)
  {
    hide ResolvedSteps, CanConclude;
    var scope := ScopeOf(p, version);
    var rules := ResolvedRules(p.playbooks, PlaybookKey, version);
    PlaybookMembers(rules, scope);
    assert TrimOf(x, rules, scope);
    pb :| pb in rules && x == Trimmed(pb, scope) && CanConclude(x.steps);
    ChosenMembers(p.playbooks, Keys(p.playbooks, PlaybookKey), version, |p.playbooks|);
    assert FromKept(p.playbooks, Keys(p.playbooks, PlaybookKey), version, |p.playbooks|, pb);
  }

  // --- which steps are left -----------------------------------------------------------------

  lemma RuleApplies<T(!new)>(rules: seq<T>, key: T -> Key, version: string)
    ensures var out := ResolvedRules(rules, key, version);
            && (forall x :: x in out ==> AppliesTo(key(x).range, version))
            && (forall i, j :: 0 <= i < j < |out| ==> key(out[i]).id != key(out[j]).id)
  {
    hide AppliesTo, ResolvedRules;
    ResolvedRulesSettled(rules, key, version);
    var out := ResolvedRules(rules, key, version);
    var keys := Keys(out, key);
    forall x | x in out ensures AppliesTo(key(x).range, version) {
      var i :| 0 <= i < |out| && out[i] == x;
      assert AppliesTo(keys[i].range, version);
    }
    forall i, j | 0 <= i < j < |out| ensures key(out[i]).id != key(out[j]).id {
      assert keys[i].id != keys[j].id;
    }
  }

  /** Whatever the pack: every rule of the projection applies to the version, and no id names two rules of a kind. */
  lemma EveryRuleApplies(p: Pack, version: string)
    ensures var q := ResolvedPack(p, version);
            && (forall x :: x in q.signals ==> AppliesTo(x.versionRange, version))
            && (forall x :: x in q.logPatterns ==> AppliesTo(x.versionRange, version))
            && (forall x :: x in q.failureModes ==> AppliesTo(x.versionRange, version))
            && (forall x :: x in q.inspect ==> AppliesTo(x.versionRange, version))
    ensures var q := ResolvedPack(p, version);
            && (forall i, j :: 0 <= i < j < |q.signals| ==> q.signals[i].id != q.signals[j].id)
            && (forall i, j :: 0 <= i < j < |q.logPatterns| ==> q.logPatterns[i].id != q.logPatterns[j].id)
            && (forall i, j :: 0 <= i < j < |q.failureModes| ==> q.failureModes[i].id != q.failureModes[j].id)
            && (forall i, j :: 0 <= i < j < |q.inspect| ==> q.inspect[i].id != q.inspect[j].id)
  {
    hide AppliesTo, ResolvedRules, ResolvedPlaybooks;
    RuleApplies(p.signals, SignalKey, version);
    RuleApplies(p.logPatterns, PatternKey, version);
    RuleApplies(p.failureModes, ModeKey, version);
    RuleApplies(p.inspect, InspectKey, version);
  }

  /** The same of playbooks, which keep their ids and ranges when they lose steps. */
  lemma EveryPlaybookApplies(p: Pack, version: string)
    ensures var q := ResolvedPack(p, version);
            && (forall x :: x in q.playbooks ==> AppliesTo(x.versionRange, version))
            && (forall i, j :: 0 <= i < j < |q.playbooks| ==> q.playbooks[i].id != q.playbooks[j].id)
  {
    hide AppliesTo, ResolvedRules, ResolvedPlaybooks;
    var rules := ResolvedRules(p.playbooks, PlaybookKey, version);
    var out := ResolvedPack(p, version).playbooks;
    ResolvedRulesSettled(p.playbooks, PlaybookKey, version);
    PlaybooksStaySettled(rules, ScopeOf(p, version), version);
    var keys := Keys(out, PlaybookKey);
    forall x | x in out ensures AppliesTo(x.versionRange, version) {
      var i :| 0 <= i < |out| && out[i] == x;
      assert AppliesTo(keys[i].range, version);
    }
    forall i, j | 0 <= i < j < |out| ensures out[i].id != out[j].id {
      assert keys[i].id != keys[j].id;
    }
  }

  /** No step of another version is ever run: every step of a resolved pack applies, whatever the pack. */
  lemma EveryStepApplies(p: Pack, version: string, x: Playbook, st: Step)
    requires x in ResolvedPack(p, version).playbooks && st in x.steps
    ensures AppliesTo(st.versionRange, version)
  {
    hide AppliesTo, ResolvedPack, ResolvedSteps;
    var pb := ResolvedPlaybookOrigin(p, version, x);
    StepStays(pb.steps, ScopeOf(p, version), st);
  }

  ghost predicate NamesLostSignal(st: Step, signals: set<string>)
  {
    st.collect.Some?
    && exists k, id :: k in st.collect.value.args && st.collect.value.args[k].Str?
                       && id in RefsIn(st.collect.value.args[k].text) && id !in signals
  }

  /** The step is for another version, or names a signal or a failure mode that the resolved pack `q` lacks. */
  ghost predicate Unfit(st: Step, version: string, q: Pack)
  {
    || !AppliesTo(st.versionRange, version)
    || NamesLostSignal(st, SignalIds(q))
    || (st.conclude.Some? && st.conclude.value.failureMode !in ModeIds(q))
  }

  /** One of the step's two expressions reads the slot. */
  ghost predicate Reads(st: Step, slot: string)
  {
    && !Expr.IsExprBuiltin(slot)
    && (slot in Expr.SlotsRead(st.evaluate)
        || (st.conclude.Some? && slot in Expr.SlotsRead(st.conclude.value.condition)))
  }

  ghost predicate Feeds(binder: Step, reader: Step)
  {
    binder.collect.Some? && binder.collect.value.slot != "" && Reads(reader, binder.collect.value.slot)
  }

  lemma UnfitDoesNotSurvive(p: Pack, version: string, st: Step)
    ensures Survives(st, ScopeOf(p, version)) <==> !Unfit(st, version, ResolvedPack(p, version))
  {
    hide AppliesTo, RefsIn, ResolvedRules;
    assert ScopeOf(p, version) == Scope(version, SignalIds(ResolvedPack(p, version)), ModeIds(ResolvedPack(p, version)));
    if st.collect.Some? {
      var args, signals := st.collect.value.args, SignalIds(ResolvedPack(p, version));
      if !RefsResolve(args, signals) {
        var k :| k in args && args[k].Str? && !(RefsIn(args[k].text) <= signals);
        var id :| id in RefsIn(args[k].text) && id !in signals;
        assert NamesLostSignal(st, signals);
      }
    }
  }

  lemma FeedingIsUnbinding(steps: seq<Step>, scope: Scope, st: Step)
    ensures ReadsUnbound(st, Unbound(steps, scope))
       <==> exists binder :: binder in steps && !Survives(binder, scope) && Feeds(binder, st)
  {
    hide Survives, Expr.SlotsRead, Expr.IsExprBuiltin;
    forall slot ensures slot in ReadSet(st) <==> Reads(st, slot) {
    }
    if ReadsUnbound(st, Unbound(steps, scope)) {
      var slot :| slot in ReadSet(st) * Unbound(steps, scope);
      var binder :| binder in steps && !Survives(binder, scope) && binder.collect.Some? && binder.collect.value.slot != ""
                    && binder.collect.value.slot == slot;
      assert Feeds(binder, st);
    }
    if binder :| binder in steps && !Survives(binder, scope) && Feeds(binder, st) {
      assert binder.collect.value.slot in ReadSet(st) * Unbound(steps, scope);
    }
  }

  /**
   * Exactly which steps a playbook of the resolved pack has lost: those that are unfit themselves and those that
   * read a slot which an unfit collect was to bind.
   */
  lemma MissingSteps(p: Pack, version: string, x: Playbook) returns (pb: Playbook)
    requires x in ResolvedPack(p, version).playbooks
    ensures pb in p.playbooks && x == pb.(steps := x.steps) && Subsequence(x.steps, pb.steps)
    ensures var q := ResolvedPack(p, version);
            forall st :: st in pb.steps ==>
              (st !in x.steps <==> Unfit(st, version, q)
                                   || exists binder :: binder in pb.steps && Unfit(binder, version, q) && Feeds(binder, st))
  {
    hide ResolvedPack, ResolvedSteps, Survives, Unfit, Feeds;
    var q, scope := ResolvedPack(p, version), ScopeOf(p, version);
    pb := ResolvedPlaybookOrigin(p, version, x);
    StepsNarrow(pb.steps, scope);
    forall st ensures Survives(st, scope) <==> !Unfit(st, version, q) {
      UnfitDoesNotSurvive(p, version, st);
    }
    forall st | st in pb.steps
      ensures st !in x.steps <==> Unfit(st, version, q)
                                  || exists binder :: binder in pb.steps && Unfit(binder, version, q) && Feeds(binder, st)
    {
      StepStays(pb.steps, scope, st);
      FeedingIsUnbinding(pb.steps, scope, st);
    }
  }

  /** In an admitted pack a lost reader has a lost collect, and not only an unfit one. */
  lemma LostReadersLackACollect(p: Pack, compiles: string -> bool, version: string, x: Playbook) returns (pb: Playbook)
    requires Admissible(p, compiles) && x in ResolvedPack(p, version).playbooks
    ensures pb in p.playbooks && x == pb.(steps := x.steps)
    ensures var q := ResolvedPack(p, version);
            forall st :: st in pb.steps ==>
              (st !in x.steps <==> Unfit(st, version, q)
                                   || exists binder :: binder in pb.steps && binder !in x.steps && Feeds(binder, st))
  {
    hide ResolvedPack, Unfit, Admissible;
    var q := ResolvedPack(p, version);
    pb := MissingSteps(p, version, x);
    AdmittedSteps(p, compiles, pb);
    forall binder | binder in pb.steps && binder.collect.Some? && binder !in x.steps ensures Unfit(binder, version, q) {
      CollectFeedsOnNothing(binder);
    }
  }

  lemma CollectFeedsOnNothing(st: Step)
    requires st.evaluate == "" && st.conclude.None?
    ensures forall binder :: !Feeds(binder, st)
  {
  }

  /** In an admitted pack, whatever slot a remaining step reads has lost none of its collects. */
  lemma NoReadIsLeftUnbound(p: Pack, compiles: string -> bool, version: string, x: Playbook, reader: Step)
    requires Admissible(p, compiles)
    requires x in ResolvedPack(p, version).playbooks && reader in x.steps
    ensures exists pb :: pb in p.playbooks && x == pb.(steps := x.steps) && Subsequence(x.steps, pb.steps)
              && forall binder :: binder in pb.steps && Binds(binder, ReadSet(reader)) ==> binder in x.steps
  {
    var scope := ScopeOf(p, version);
    var pb := ResolvedPlaybookOrigin(p, version, x);
    StepsNarrow(pb.steps, scope);
    AdmittedSteps(p, compiles, pb);
    forall binder | binder in pb.steps && Binds(binder, ReadSet(reader)) ensures binder in x.steps {
      ReadSlotsKeepTheirCollects(pb.steps, scope, reader, binder);
    }
  }

  ghost predicate Binds(st: Step, slots: set<string>)
  {
    st.collect.Some? && st.collect.value.slot != "" && st.collect.value.slot in slots
  }

  lemma AdmittedSteps(p: Pack, compiles: string -> bool, pb: Playbook)
    requires Admissible(p, compiles) && pb in p.playbooks
    ensures PlaybookOk(pb, SignalIds(p), ModeIds(p))
    ensures forall st :: st in pb.steps ==> StepOk(st, SignalIds(p), ModeIds(p))
    ensures CollectsReadNothing(pb.steps)
  {
    hide RangeOk, RefsResolve, BranchOk;
    var i :| 0 <= i < |p.playbooks| && p.playbooks[i] == pb;
    assert PlaybookCheck(SignalIds(p), ModeIds(p))(p.playbooks[i]);
    forall st | st in pb.steps ensures StepOk(st, SignalIds(p), ModeIds(p)) {
      var j :| 0 <= j < |pb.steps| && pb.steps[j] == st;
      assert StepCheck(SignalIds(p), ModeIds(p))(pb.steps[j]);
    }
  }
}
