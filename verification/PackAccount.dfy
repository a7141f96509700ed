/** Resolution drops nothing silently, and reports nothing it kept. */
module PackAccount {
  import opened VersionRanges
  import opened Packs
  import opened Resolve
  import opened Resolution
  import opened StepResolution
  import opened PackResolution

  /** The gaps of a resolution name this id, on its own or inside the aggregate. */
  ghost predicate Reported(gaps: multiset<Gap>, kind: string, id: string, version: string)
  {
    || NoVariant(kind, id, version) in gaps
    || VersionUnknown(kind, id) in gaps
    || exists skipped :: NotApplicable(skipped) in gaps && Note(kind, id) in skipped
  }

  /** `kind` id was declared in `before` and is gone from `after`. */
  ghost predicate Lost(before: seq<Key>, after: seq<Key>, id: string)
  {
    id in Ids(before) && id !in Ids(after)
  }

  lemma {:induction false} SkippedKind(keys: seq<Key>, kind: string, version: string, n: nat)
    requires n <= |keys|
    ensures forall note :: note in SkippedRules(keys, kind, version, n) ==> note.kind == kind
  {
    hide AppliesTo, Lone;
    if n > 0 {
      SkippedKind(keys, kind, version, n - 1);
    }
  }

  ghost predicate Inconclusive(playbooks: seq<Playbook>, scope: Scope, id: string)
  {
    exists pb :: pb in playbooks && pb.id == id && !CanConclude(ResolvedSteps(pb.steps, scope))
  }

  ghost predicate DroppedFrom(playbooks: seq<Playbook>, scope: Scope, id: string)
  {
    exists pb, step :: pb in playbooks && step in DroppedSteps(pb.steps, scope) && id == pb.id + "/" + step
  }

  lemma {:induction false} PlaybookNoteMembers(playbooks: seq<Playbook>, scope: Scope)
    ensures forall note :: note in PlaybookNotes(playbooks, scope)
              <==> || (note.kind == "playbook" && Inconclusive(playbooks, scope, note.id))
                   || (note.kind == "step" && DroppedFrom(playbooks, scope, note.id))
  {
    hide ResolvedSteps, CanConclude, DroppedSteps;
    if playbooks != [] {
      var init, last := playbooks[..|playbooks| - 1], playbooks[|playbooks| - 1];
      PlaybookNoteMembers(init, scope);
      assert playbooks == init + [last];
      var dropped := DroppedSteps(last.steps, scope);
      StepNoteMembers(last, dropped);
      forall id ensures Inconclusive(playbooks, scope, id)
        <==> Inconclusive(init, scope, id) || (last.id == id && !CanConclude(ResolvedSteps(last.steps, scope)))
      {
        assert last in playbooks;
        if Inconclusive(init, scope, id) {
          var pb :| pb in init && pb.id == id && !CanConclude(ResolvedSteps(pb.steps, scope));
          assert pb in playbooks;
        }
      }
      forall id ensures DroppedFrom(playbooks, scope, id)
        <==> DroppedFrom(init, scope, id) || exists step :: step in dropped && id == last.id + "/" + step
      {
        assert last in playbooks;
        if DroppedFrom(init, scope, id) {
          var pb, step :| pb in init && step in DroppedSteps(pb.steps, scope) && id == pb.id + "/" + step;
          assert pb in playbooks;
        }
      }
    }
  }

  lemma StepNoteMembers(pb: Playbook, dropped: seq<string>)
    ensures forall note :: note in StepNotes(pb, dropped)
              <==> note.kind == "step" && exists step :: step in dropped && note.id == pb.id + "/" + step
  {
    var notes := StepNotes(pb, dropped);
    forall note ensures note in notes <==> note.kind == "step" && exists step :: step in dropped && note.id == pb.id + "/" + step {
      if note in notes {
        var i :| 0 <= i < |notes| && notes[i] == note;
        assert dropped[i] in dropped;
      }
      if note.kind == "step" && exists step :: step in dropped && note.id == pb.id + "/" + step {
        var step :| step in dropped && note.id == pb.id + "/" + step;
        var i :| 0 <= i < |dropped| && dropped[i] == step;
        assert notes[i] == note;
      }
    }
  }

  /** What the whole report says about one kind is what that kind's own pass said. */
  lemma ReportedMeaning(p: Pack, version: string, kind: string, id: string)
    ensures Reported(ResolutionGaps(p, version), kind, id, version)
            <==> NamedIn(Skipped(p, version), Itemised(p, version), kind, id, version)
  {
    hide SkippedOf, VariantGaps, PlaybookNotes, ResolvedRules, Keys;
    var skipped, gaps := Skipped(p, version), ResolutionGaps(p, version);
    NoAggregateAmongItemised(p, version);
    if skipped != [] {
      assert NotApplicable(multiset(skipped)) in gaps;
    }
    if Note(kind, id) in skipped {
      assert Note(kind, id) in multiset(skipped);
    }
  }

  lemma NoAggregateAmongItemised(p: Pack, version: string)
    ensures forall g :: g in Itemised(p, version) ==> !g.NotApplicable?
  {
    hide VariantGaps, Keys;
    GapMembers(Keys(p.signals, SignalKey), "signal", version, "");
    GapMembers(Keys(p.logPatterns, PatternKey), "logPattern", version, "");
    GapMembers(Keys(p.failureModes, ModeKey), "failureMode", version, "");
    GapMembers(Keys(p.inspect, InspectKey), "inspect", version, "");
    GapMembers(Keys(p.playbooks, PlaybookKey), "playbook", version, "");
  }

  const RULE_KINDS: set<string> := {"signal", "logPattern", "failureMode", "inspect", "playbook"}

  function KindKeys(p: Pack, kind: string): (out: seq<Key>)
  {
    if kind == "signal" then Keys(p.signals, SignalKey)
    else if kind == "logPattern" then Keys(p.logPatterns, PatternKey)
    else if kind == "failureMode" then Keys(p.failureModes, ModeKey)
    else if kind == "inspect" then Keys(p.inspect, InspectKey)
    else Keys(p.playbooks, PlaybookKey)
  }

  function KindSkipped(p: Pack, kind: string, version: string): (out: seq<Note>)
  {
    SkippedRules(KindKeys(p, kind), kind, version, |KindKeys(p, kind)|)
  }

  lemma NotesPerKind(p: Pack, version: string, kind: string, id: string)
    requires kind in RULE_KINDS
    ensures Note(kind, id) in Skipped(p, version)
            <==> || Note(kind, id) in KindSkipped(p, kind, version)
                 || Note(kind, id) in PlaybookNotes(ResolvedRules(p.playbooks, PlaybookKey, version), ScopeOf(p, version))
  {
    hide PlaybookNotes, ResolvedRules, Keys, SkippedRules, ScopeOf;
    SkippedKinds(p, version);
    var note := Note(kind, id);
    var n1, n2, n3, n4, n5 := KindSkipped(p, "signal", version), KindSkipped(p, "logPattern", version),
      KindSkipped(p, "failureMode", version), KindSkipped(p, "inspect", version), KindSkipped(p, "playbook", version);
    var n6 := PlaybookNotes(ResolvedRules(p.playbooks, PlaybookKey, version), ScopeOf(p, version));
    assert Skipped(p, version) == n1 + n2 + n3 + n4 + n5 + n6;
    assert note in Skipped(p, version)
      <==> note in n1 || note in n2 || note in n3 || note in n4 || note in n5 || note in n6;
  }

  lemma ItemisedPerKind(p: Pack, version: string, kind: string, g: Gap)
    requires kind in RULE_KINDS && !g.NotApplicable? && g.kind == kind
    ensures g in Itemised(p, version) <==> g in VariantGaps(KindKeys(p, kind), kind, version)
  {
    hide VariantGaps, Keys;
    GapKinds(p, version, "");
    assert g in Itemised(p, version)
      <==> || g in VariantGaps(KindKeys(p, "signal"), "signal", version)
           || g in VariantGaps(KindKeys(p, "logPattern"), "logPattern", version)
           || g in VariantGaps(KindKeys(p, "failureMode"), "failureMode", version)
           || g in VariantGaps(KindKeys(p, "inspect"), "inspect", version)
           || g in VariantGaps(KindKeys(p, "playbook"), "playbook", version);
  }

  /** Only a kind's own pass reports on it; playbooks are also reported when they can no longer conclude. */
  lemma ReportsPerKind(p: Pack, version: string, kind: string, id: string)
    requires kind in RULE_KINDS
    ensures NamedIn(Skipped(p, version), Itemised(p, version), kind, id, version)
            <==> || NamedIn(KindSkipped(p, kind, version), VariantGaps(KindKeys(p, kind), kind, version), kind, id, version)
                 || (kind == "playbook"
                     && Inconclusive(ResolvedRules(p.playbooks, PlaybookKey, version), ScopeOf(p, version), id))
  {
    hide VariantGaps, PlaybookNotes, ResolvedRules, KindKeys, KindSkipped, Itemised, Skipped, ScopeOf, Inconclusive, DroppedFrom;
    NotesPerKind(p, version, kind, id);
    ItemisedPerKind(p, version, kind, NoVariant(kind, id, version));
    ItemisedPerKind(p, version, kind, VersionUnknown(kind, id));
    PlaybookNoteMembers(ResolvedRules(p.playbooks, PlaybookKey, version), ScopeOf(p, version));
  }

  lemma SkippedKinds(p: Pack, version: string)
    ensures forall kind :: kind in RULE_KINDS ==> forall note :: note in KindSkipped(p, kind, version) ==> note.kind == kind
  {
    forall kind | kind in RULE_KINDS ensures forall note :: note in KindSkipped(p, kind, version) ==> note.kind == kind {
      SkippedKind(KindKeys(p, kind), kind, version, |KindKeys(p, kind)|);
    }
  }

  lemma GapKinds(p: Pack, version: string, id: string)
    ensures forall kind :: kind in RULE_KINDS ==>
      forall g :: g in VariantGaps(KindKeys(p, kind), kind, version) ==> !g.NotApplicable? && g.kind == kind
  {
    forall kind | kind in RULE_KINDS
      ensures forall g :: g in VariantGaps(KindKeys(p, kind), kind, version) ==> !g.NotApplicable? && g.kind == kind
    {
      GapMembers(KindKeys(p, kind), kind, version, id);
    }
  }

  lemma StaysIfConclusive(rules: seq<Playbook>, scope: Scope, i: nat)
    requires i < |rules| && CanConclude(ResolvedSteps(rules[i].steps, scope))
    ensures rules[i].id in Ids(Keys(ResolvedPlaybooks(rules, scope), PlaybookKey))
  {
    hide ResolvedSteps, CanConclude, ResolvedPlaybooks;
    var out := ResolvedPlaybooks(rules, scope);
    PlaybookMembers(rules, scope);
    assert TrimOf(Trimmed(rules[i], scope), rules, scope);
    var k :| 0 <= k < |out| && out[k] == Trimmed(rules[i], scope);
    assert Keys(out, PlaybookKey)[k] in Keys(out, PlaybookKey);
  }

  lemma StaysOnlyIfConclusive(rules: seq<Playbook>, scope: Scope, id: string) returns (i: nat)
    requires id in Ids(Keys(ResolvedPlaybooks(rules, scope), PlaybookKey))
    ensures i < |rules| && rules[i].id == id && CanConclude(ResolvedSteps(rules[i].steps, scope))
  {
    hide ResolvedSteps, CanConclude, ResolvedPlaybooks;
    var out := ResolvedPlaybooks(rules, scope);
    PlaybookMembers(rules, scope);
    var k :| 0 <= k < |out| && Keys(out, PlaybookKey)[k].id == id;
    assert TrimOf(out[k], rules, scope);
    var pb :| pb in rules && out[k] == Trimmed(pb, scope) && CanConclude(out[k].steps);
    i :| 0 <= i < |rules| && rules[i] == pb;
  }

  /** The ids of the playbooks that stay: chosen, and still able to conclude. */
  lemma PlaybookIds(p: Pack, version: string, id: string)
    ensures var rules := ResolvedRules(p.playbooks, PlaybookKey, version);
            id in Ids(Keys(ResolvedPack(p, version).playbooks, PlaybookKey))
            <==> id in Ids(Keys(rules, PlaybookKey)) && !Inconclusive(rules, ScopeOf(p, version), id)
  {
    hide ResolvedSteps, CanConclude, ResolvedRules, AppliesTo, ResolvedPlaybooks, ScopeOf;
    var rules, scope := ResolvedRules(p.playbooks, PlaybookKey, version), ScopeOf(p, version);
    var keys := Keys(rules, PlaybookKey);
    ResolvedRulesSettled(p.playbooks, PlaybookKey, version);
    if id in Ids(keys) {
      var i :| 0 <= i < |keys| && keys[i].id == id;
      forall pb | pb in rules && pb.id == id ensures pb == rules[i] {
        var j :| 0 <= j < |rules| && rules[j] == pb;
        assert keys[j].id == keys[i].id;
      }
      if CanConclude(ResolvedSteps(rules[i].steps, scope)) {
        StaysIfConclusive(rules, scope, i);
      }
    }
    if id in Ids(Keys(ResolvedPlaybooks(rules, scope), PlaybookKey)) {
      var i := StaysOnlyIfConclusive(rules, scope, id);
      assert keys[i] in keys;
    }
  }

  /**
   * The report is exact: for every kind of rule, the ids it names are the declared ids that the
   * resolved pack no longer has, no more and no fewer.
   */
  lemma EveryLossIsReported(p: Pack, version: string, kind: string, id: string)
    requires kind in RULE_KINDS
    ensures Reported(ResolutionGaps(p, version), kind, id, version)
            <==> Lost(KindKeys(p, kind), KindKeys(ResolvedPack(p, version), kind), id)
  {
    hide ResolvedRules, SkippedRules, VariantGaps, Keys, ResolvedPlaybooks, ResolutionGaps, Skipped, Itemised;
    ReportedMeaning(p, version, kind, id);
    ReportsPerKind(p, version, kind, id);
    RulesAccounted(p.signals, SignalKey, "signal", version, id);
    RulesAccounted(p.logPatterns, PatternKey, "logPattern", version, id);
    RulesAccounted(p.failureModes, ModeKey, "failureMode", version, id);
    RulesAccounted(p.inspect, InspectKey, "inspect", version, id);
    RulesAccounted(p.playbooks, PlaybookKey, "playbook", version, id);
    if kind == "playbook" {
      PlaybookIds(p, version, id);
      InconclusiveIsDeclared(p, version, id);
    }
  }

  lemma InconclusiveIsDeclared(p: Pack, version: string, id: string)
    ensures var rules := ResolvedRules(p.playbooks, PlaybookKey, version);
            Inconclusive(rules, ScopeOf(p, version), id) ==>
              id in Ids(Keys(rules, PlaybookKey)) && id in Ids(Keys(p.playbooks, PlaybookKey))
  {
    hide CanConclude, ResolvedSteps;
    var rules, scope := ResolvedRules(p.playbooks, PlaybookKey, version), ScopeOf(p, version);
    if Inconclusive(rules, scope, id) {
      var pb :| pb in rules && pb.id == id && !CanConclude(ResolvedSteps(pb.steps, scope));
      var i :| 0 <= i < |rules| && rules[i] == pb;
      assert Keys(rules, PlaybookKey)[i] in Keys(rules, PlaybookKey);
      var keys := Keys(p.playbooks, PlaybookKey);
      ChosenMembers(p.playbooks, keys, version, |p.playbooks|);
      assert FromKept(p.playbooks, keys, version, |p.playbooks|, pb);
      var j :| KeptIndex(keys, version, |p.playbooks|, j) && p.playbooks[j] == pb;
      assert keys[j] in keys;
    }
  }

  /** Every step is kept or dropped, and every dropped one is named in the aggregate with its playbook. */
  lemma EveryStepIsReported(p: Pack, version: string, pb: Playbook)
    requires pb in ResolvedRules(p.playbooks, PlaybookKey, version)
    ensures var scope := ScopeOf(p, version);
            && multiset(StepIds(pb.steps))
               == multiset(StepIds(ResolvedSteps(pb.steps, scope))) + multiset(DroppedSteps(pb.steps, scope))
            && forall step :: step in DroppedSteps(pb.steps, scope) ==>
                 Reported(ResolutionGaps(p, version), "step", pb.id + "/" + step, version)
  {
    hide ResolvedRules, SkippedOf, VariantGaps, Keys, ResolvedSteps, DroppedSteps, ResolutionGaps;
    var scope := ScopeOf(p, version);
    var rules := ResolvedRules(p.playbooks, PlaybookKey, version);
    StepsConserved(pb.steps, scope);
    PlaybookNoteMembers(rules, scope);
    forall step | step in DroppedSteps(pb.steps, scope)
      ensures Reported(ResolutionGaps(p, version), "step", pb.id + "/" + step, version)
    {
      var id := pb.id + "/" + step;
      assert DroppedFrom(rules, scope, id);
      assert Note("step", id) in PlaybookNotes(rules, scope);
      assert Note("step", id) in Skipped(p, version);
      ReportedMeaning(p, version, "step", id);
    }
  }
}
