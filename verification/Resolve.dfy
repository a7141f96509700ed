/** Pack.Resolve: the pack as it applies to one deployed version, and an account of what it lost. */
module Resolve {
  import opened GoStrings
  import opened VersionRanges
  import opened Packs
  import Expr

  // --- what resolution reports -----------------------------------------------------

  datatype Note = Note(kind: string, id: string)

  /** MAS-5017, MAS-5018 and the one aggregate MAS-5019, whose sorted list is a multiset here. */
  datatype Gap =
    | NoVariant(kind: string, id: string, version: string)
    | VersionUnknown(kind: string, id: string)
    | NotApplicable(skipped: multiset<Note>)

  // --- rules ------------------------------------------------------------------------

  /** The only declaration of its id. */
  predicate Lone(keys: seq<Key>, i: nat)
    requires i < |keys|
  {
    forall j :: 0 <= j < |keys| && keys[j].id == keys[i].id ==> j == i
  }

  /** A lone rule stays when its range applies; of several variants the first that applies stays. */
  predicate Kept(keys: seq<Key>, version: string, i: nat)
    requires i < |keys|
  {
    && AppliesTo(keys[i].range, version)
    && (Lone(keys, i) || (!Blank(version) && !AppliesBefore(keys, version, keys[i].id, i)))
  }

  predicate AppliesBefore(keys: seq<Key>, version: string, id: string, n: nat)
    requires n <= |keys|
  {
    exists j :: 0 <= j < n && keys[j].id == id && AppliesTo(keys[j].range, version)
  }

  /** The rules kept among the first `n`, in their order. */
  function Chosen<T>(rules: seq<T>, keys: seq<Key>, version: string, n: nat): (out: seq<T>)
    requires n <= |rules| == |keys|
  {
    if n == 0 then []
    else Chosen(rules, keys, version, n - 1) + (if Kept(keys, version, n - 1) then [rules[n - 1]] else [])
  }

  function ResolvedRules<T>(rules: seq<T>, key: T -> Key, version: string): (out: seq<T>)
  {
    Chosen(rules, Keys(rules, key), version, |rules|)
  }

  /** The lone rules among the first `n` that do not apply. */
  function SkippedRules(keys: seq<Key>, kind: string, version: string, n: nat): (notes: seq<Note>)
    requires n <= |keys|
  {
    if n == 0 then []
    else
      SkippedRules(keys, kind, version, n - 1)
      + (if Lone(keys, n - 1) && !AppliesTo(keys[n - 1].range, version) then [Note(kind, keys[n - 1].id)] else [])
  }

  /** The ids among the first `n` rules that have several declarations. */
  function Repeated(keys: seq<Key>, n: nat): (r: set<string>)
    requires n <= |keys|
  {
    set i | 0 <= i < n && !Lone(keys, i) :: keys[i].id
  }

  function Unplaced(keys: seq<Key>, version: string): (r: set<string>)
  {
    set id | id in Repeated(keys, |keys|) && !AppliesBefore(keys, version, id, |keys|)
  }

  /** The itemised gaps of one rule kind: ids whose variants could not be chosen between, or did not fit. */
  function VariantGaps(keys: seq<Key>, kind: string, version: string): (r: multiset<Gap>)
  {
    if Blank(version) then multiset(UnknownGaps(kind, Repeated(keys, |keys|)))
    else multiset(MissingGaps(kind, Unplaced(keys, version), version))
  }

  function UnknownGaps(kind: string, ids: set<string>): (r: set<Gap>)
  {
    set id | id in ids :: VersionUnknown(kind, id)
  }

  function MissingGaps(kind: string, ids: set<string>, version: string): (r: set<Gap>)
  {
    set id | id in ids :: NoVariant(kind, id, version)
  }

  // --- steps ------------------------------------------------------------------------

  /** What a playbook's steps may rely on after the rules are resolved. */
  datatype Scope = Scope(version: string, signals: set<string>, modes: set<string>)

  predicate Survives(st: Step, scope: Scope)
  {
    && AppliesTo(st.versionRange, scope.version)
    && (st.collect.Some? ==> RefsResolve(st.collect.value.args, scope.signals))
    && (st.conclude.Some? ==> st.conclude.value.failureMode in scope.modes)
  }

  function Surviving(steps: seq<Step>, scope: Scope): (out: seq<Step>)
  {
    if steps == [] then []
    else
      var last := steps[|steps| - 1];
      Surviving(steps[..|steps| - 1], scope) + (if Survives(last, scope) then [last] else [])
  }

  function LostIds(steps: seq<Step>, scope: Scope): (out: seq<string>)
  {
    if steps == [] then []
    else
      var last := steps[|steps| - 1];
      LostIds(steps[..|steps| - 1], scope) + (if Survives(last, scope) then [] else [last.id])
  }

  /** The slots of the collects that were lost, whether or not another collect binds them too. */
  function Unbound(steps: seq<Step>, scope: Scope): (r: set<string>)
  {
    set st | st in steps && !Survives(st, scope) && st.collect.Some? && st.collect.value.slot != ""
      :: st.collect.value.slot
  }

  /** The slots a step's expressions read. */
  function ReadSet(st: Step): (r: set<string>)
  {
    (set id | id in Expr.SlotsRead(st.evaluate) && !Expr.IsExprBuiltin(id))
    + (if st.conclude.Some? then set id | id in Expr.SlotsRead(st.conclude.value.condition) && !Expr.IsExprBuiltin(id)
       else {})
  }

  predicate ReadsUnbound(st: Step, unbound: set<string>)
  {
    ReadSet(st) * unbound != {}
  }

  function StillBound(steps: seq<Step>, unbound: set<string>): (out: seq<Step>)
  {
    if steps == [] then []
    else
      var last := steps[|steps| - 1];
      StillBound(steps[..|steps| - 1], unbound) + (if ReadsUnbound(last, unbound) then [] else [last])
  }

  function ReaderIds(steps: seq<Step>, unbound: set<string>): (out: seq<string>)
  {
    if steps == [] then []
    else
      var last := steps[|steps| - 1];
      ReaderIds(steps[..|steps| - 1], unbound) + (if ReadsUnbound(last, unbound) then [last.id] else [])
  }

  function ResolvedSteps(steps: seq<Step>, scope: Scope): (out: seq<Step>)
  {
    StillBound(Surviving(steps, scope), Unbound(steps, scope))
  }

  function DroppedSteps(steps: seq<Step>, scope: Scope): (out: seq<string>)
  {
    LostIds(steps, scope) + ReaderIds(Surviving(steps, scope), Unbound(steps, scope))
  }

  predicate CanConclude(steps: seq<Step>)
  {
    exists i :: 0 <= i < |steps| && steps[i].conclude.Some?
  }

  // --- playbooks and the whole pack ---------------------------------------------------

  function ResolvedPlaybooks(playbooks: seq<Playbook>, scope: Scope): (out: seq<Playbook>)
  {
    if playbooks == [] then []
    else
      var pb := playbooks[|playbooks| - 1];
      var steps := ResolvedSteps(pb.steps, scope);
      ResolvedPlaybooks(playbooks[..|playbooks| - 1], scope)
      + (if CanConclude(steps) then [pb.(steps := steps)] else [])
  }

  function StepNotes(pb: Playbook, dropped: seq<string>): (notes: seq<Note>)
    ensures |notes| == |dropped|
    ensures forall i :: 0 <= i < |dropped| ==> notes[i] == Note("step", pb.id + "/" + dropped[i])
  {
    seq(|dropped|, i requires 0 <= i < |dropped| => Note("step", pb.id + "/" + dropped[i]))
  }

  function PlaybookNotes(playbooks: seq<Playbook>, scope: Scope): (out: seq<Note>)
  {
    if playbooks == [] then []
    else
      var pb := playbooks[|playbooks| - 1];
      PlaybookNotes(playbooks[..|playbooks| - 1], scope)
      + StepNotes(pb, DroppedSteps(pb.steps, scope))
      + (if CanConclude(ResolvedSteps(pb.steps, scope)) then [] else [Note("playbook", pb.id)])
  }

  function ScopeOf(p: Pack, version: string): (r: Scope)
  {
    Scope(version,
          Ids(Keys(ResolvedRules(p.signals, SignalKey, version), SignalKey)),
          Ids(Keys(ResolvedRules(p.failureModes, ModeKey, version), ModeKey)))
  }

  function ResolvedPack(p: Pack, version: string): (r: Pack)
  {
    p.(signals := ResolvedRules(p.signals, SignalKey, version),
       logPatterns := ResolvedRules(p.logPatterns, PatternKey, version),
       failureModes := ResolvedRules(p.failureModes, ModeKey, version),
       inspect := ResolvedRules(p.inspect, InspectKey, version),
       playbooks := ResolvedPlaybooks(ResolvedRules(p.playbooks, PlaybookKey, version), ScopeOf(p, version)),
       metadata := p.metadata.(resolvedFor := version))
  }

  function SkippedOf<T>(rules: seq<T>, key: T -> Key, kind: string, version: string): (out: seq<Note>)
  {
    SkippedRules(Keys(rules, key), kind, version, |rules|)
  }

  /** Everything left out quietly enough to share one gap. */
  function Skipped(p: Pack, version: string): (out: seq<Note>)
  {
    SkippedOf(p.signals, SignalKey, "signal", version)
    + SkippedOf(p.logPatterns, PatternKey, "logPattern", version)
    + SkippedOf(p.failureModes, ModeKey, "failureMode", version)
    + SkippedOf(p.inspect, InspectKey, "inspect", version)
    + SkippedOf(p.playbooks, PlaybookKey, "playbook", version)
    + PlaybookNotes(ResolvedRules(p.playbooks, PlaybookKey, version), ScopeOf(p, version))
  }

  /** Everything that gets a gap of its own. */
  function Itemised(p: Pack, version: string): (r: multiset<Gap>)
  {
    VariantGaps(Keys(p.signals, SignalKey), "signal", version)
    + VariantGaps(Keys(p.logPatterns, PatternKey), "logPattern", version)
    + VariantGaps(Keys(p.failureModes, ModeKey), "failureMode", version)
    + VariantGaps(Keys(p.inspect, InspectKey), "inspect", version)
    + VariantGaps(Keys(p.playbooks, PlaybookKey), "playbook", version)
  }

  function ResolutionGaps(p: Pack, version: string): (r: multiset<Gap>)
  {
    var skipped := Skipped(p, version);
    Itemised(p, version) + (if skipped == [] then multiset{} else multiset{NotApplicable(multiset(skipped))})
  }

  // --- the procedure --------------------------------------------------------------------

  function Count(keys: seq<Key>, id: string, n: nat): (r: nat)
    requires n <= |keys|
  {
    if n == 0 then 0 else Count(keys, id, n - 1) + (if keys[n - 1].id == id then 1 else 0)
  }

  method CountIds(keys: seq<Key>) returns (counts: map<string, nat>)
    ensures counts.Keys == Ids(keys)
    ensures forall id :: id in counts ==> counts[id] == Count(keys, id, |keys|)
  {
    counts := map[];
    for i := 0 to |keys|
      invariant forall id :: id in counts <==> Count(keys, id, i) > 0
      invariant forall id :: id in counts ==> counts[id] == Count(keys, id, i)
    {
      var id := keys[i].id;
      counts := counts[id := (if id in counts then counts[id] else 0) + 1];
    }
    forall id ensures id in counts <==> id in Ids(keys) {
      CountPositive(keys, id, |keys|);
      assert id in Ids(keys) <==> exists k :: k in keys && k.id == id;
    }
  }

  lemma {:induction false} CountPositive(keys: seq<Key>, id: string, n: nat)
    requires n <= |keys|
    ensures Count(keys, id, n) > 0 <==> exists i :: 0 <= i < n && keys[i].id == id
  {
    if n > 0 {
      CountPositive(keys, id, n - 1);
    }
  }

  lemma {:induction false} CountTwo(keys: seq<Key>, i: nat, j: nat, n: nat)
    requires i < j < n <= |keys| && keys[i].id == keys[j].id
    ensures Count(keys, keys[i].id, n) >= 2
  {
    if j < n - 1 {
      CountTwo(keys, i, j, n - 1);
    } else {
      CountPositive(keys, keys[i].id, n - 1);
    }
  }

  lemma {:induction false} CountOne(keys: seq<Key>, i: nat, n: nat)
    requires i < |keys| && Lone(keys, i) && n <= |keys|
    ensures Count(keys, keys[i].id, n) == if i < n then 1 else 0
  {
    if n > 0 {
      CountOne(keys, i, n - 1);
    }
  }

  /** Counting finds exactly the lone declarations. */
  lemma CountIsOne(keys: seq<Key>, i: nat)
    requires i < |keys|
    ensures Count(keys, keys[i].id, |keys|) == 1 <==> Lone(keys, i)
  {
    if Lone(keys, i) {
      CountOne(keys, i, |keys|);
    } else {
      var j :| 0 <= j < |keys| && keys[j].id == keys[i].id && j != i;
      CountTwo(keys, if i < j then i else j, if i < j then j else i, |keys|);
    }
  }

  /** Which repeated ids have been dealt with after `n` rules. */
  function PlacedAfter(keys: seq<Key>, version: string, n: nat): (r: set<string>)
    requires n <= |keys|
  {
    set id | id in Repeated(keys, n) && (Blank(version) || AppliesBefore(keys, version, id, n))
  }

  lemma PlacedStep(keys: seq<Key>, version: string, i: nat)
    requires i < |keys|
    ensures PlacedAfter(keys, version, i + 1)
         == PlacedAfter(keys, version, i)
            + (if !Lone(keys, i) && (Blank(version) || AppliesTo(keys[i].range, version)) then {keys[i].id} else {})
    ensures !Lone(keys, i) && !Blank(version) ==>
              (keys[i].id in PlacedAfter(keys, version, i) <==> AppliesBefore(keys, version, keys[i].id, i))
  {
    hide AppliesTo;
    hide Blank;
    var now, then' := PlacedAfter(keys, version, i), PlacedAfter(keys, version, i + 1);
    forall id ensures id in Repeated(keys, i + 1) <==> id in Repeated(keys, i) || (!Lone(keys, i) && id == keys[i].id) {
    }
    forall id ensures AppliesBefore(keys, version, id, i + 1)
                      <==> AppliesBefore(keys, version, id, i) || (id == keys[i].id && AppliesTo(keys[i].range, version)) {
    }
    if AppliesBefore(keys, version, keys[i].id, i) {
      var j :| 0 <= j < i && keys[j].id == keys[i].id && AppliesTo(keys[j].range, version);
      assert !Lone(keys, j);
    }
  }

  lemma UnknownGrows(kind: string, ids: set<string>, id: string)
    requires id !in ids
    ensures multiset(UnknownGaps(kind, ids + {id})) == multiset(UnknownGaps(kind, ids)) + multiset{VersionUnknown(kind, id)}
  {
    assert UnknownGaps(kind, ids + {id}) == UnknownGaps(kind, ids) + {VersionUnknown(kind, id)};
  }

  lemma MissingGrows(kind: string, ids: set<string>, id: string, version: string)
    requires id !in ids
    ensures multiset(MissingGaps(kind, ids + {id}, version))
         == multiset(MissingGaps(kind, ids, version)) + multiset{NoVariant(kind, id, version)}
  {
    assert MissingGaps(kind, ids + {id}, version) == MissingGaps(kind, ids, version) + {NoVariant(kind, id, version)};
  }

  lemma NothingPlaced(keys: seq<Key>, kind: string, version: string)
    ensures PlacedAfter(keys, version, 0) == {} && UnknownGaps(kind, {}) == {}
  {
  }

  /** resolveRules, its first pass: choose, and note what could not be chosen between. */
  method ChooseRules<T>(rules: seq<T>, keys: seq<Key>, counts: map<string, nat>, kind: string, version: string)
    returns (out: seq<T>, gaps: multiset<Gap>, skipped: seq<Note>, placed: set<string>)
    requires |rules| == |keys| && counts.Keys == Ids(keys)
    requires forall id :: id in counts ==> counts[id] == Count(keys, id, |keys|)
    ensures out == Chosen(rules, keys, version, |rules|)
    ensures skipped == SkippedRules(keys, kind, version, |rules|)
    ensures placed == PlacedAfter(keys, version, |keys|)
    ensures gaps == if Blank(version) then multiset(UnknownGaps(kind, placed)) else multiset{}
  {
    hide AppliesTo, Blank, PlacedAfter, UnknownGaps, Count;
    placed := {};
    NothingPlaced(keys, kind, version);
    out, gaps, skipped := [], multiset{}, [];
    for i := 0 to |rules|
      invariant out == Chosen(rules, keys, version, i)
      invariant skipped == SkippedRules(keys, kind, version, i)
      invariant placed == PlacedAfter(keys, version, i)
      invariant gaps == if Blank(version) then multiset(UnknownGaps(kind, placed)) else multiset{}
    {
      var id := keys[i].id;
      assert keys[i] in keys;
      CountIsOne(keys, i);
      PlacedStep(keys, version, i);
      if counts[id] == 1 {
        if AppliesTo(keys[i].range, version) {
          out := out + [rules[i]];
        } else {
          skipped := skipped + [Note(kind, id)];
        }
      } else if Blank(version) {
        if id !in placed {
          UnknownGrows(kind, placed, id);
          placed := placed + {id};
          gaps := gaps + multiset{VersionUnknown(kind, id)};
        }
      } else if AppliesTo(keys[i].range, version) && id !in placed {
        placed := placed + {id};
        out := out + [rules[i]];
      }
    }
  }

  /** resolveRules. */
  method ResolveRules<T>(rules: seq<T>, key: T -> Key, kind: string, version: string)
    returns (out: seq<T>, gaps: multiset<Gap>, skipped: seq<Note>)
    ensures out == ResolvedRules(rules, key, version)
    ensures gaps == VariantGaps(Keys(rules, key), kind, version)
    ensures skipped == SkippedOf(rules, key, kind, version)
  {
    hide AppliesTo, Blank, Chosen, SkippedRules, PlacedAfter, Unplaced, Repeated, UnknownGaps, MissingGaps, Keys, Ids, Count;
    var keys := Keys(rules, key);
    var counts := CountIds(keys);
    var placed;
    out, gaps, skipped, placed := ChooseRules(rules, keys, counts, kind, version);
    ghost var found := gaps;
    var todo := counts.Keys;
    ghost var missing: set<string> := {};
    NoMissingGaps(kind, version);
    while todo != {}
      invariant todo <= counts.Keys
      invariant forall id :: id in missing <==> id in counts && id !in todo && counts[id] > 1 && id !in placed && !Blank(version)
      invariant gaps == found + multiset(MissingGaps(kind, missing, version))
    {
      var id :| id in todo;
      todo := todo - {id};
      if counts[id] > 1 && id !in placed && !Blank(version) {
        MissingGrows(kind, missing, id, version);
        missing := missing + {id};
        gaps := gaps + multiset{NoVariant(kind, id, version)};
      }
    }
    MissingIsUnplaced(keys, version, counts, placed, missing);
  }

  lemma NoMissingGaps(kind: string, version: string)
    ensures multiset(MissingGaps(kind, {}, version)) == multiset{}
  {
    assert MissingGaps(kind, {}, version) == {};
  }

  lemma MissingIsUnplaced(keys: seq<Key>, version: string, counts: map<string, nat>, placed: set<string>, missing: set<string>)
    requires counts.Keys == Ids(keys) && forall id :: id in counts ==> counts[id] == Count(keys, id, |keys|)
    requires placed == PlacedAfter(keys, version, |keys|)
    requires forall id :: id in missing <==> id in counts && counts[id] > 1 && id !in placed && !Blank(version)
    ensures Blank(version) ==> placed == Repeated(keys, |keys|) && missing == {}
    ensures !Blank(version) ==> missing == Unplaced(keys, version)
  {
    hide AppliesTo, Blank;
    RepeatedIds(keys, counts);
  }

  lemma RepeatedIds(keys: seq<Key>, counts: map<string, nat>)
    requires counts.Keys == Ids(keys) && forall id :: id in counts ==> counts[id] == Count(keys, id, |keys|)
    ensures forall id :: id in Repeated(keys, |keys|) <==> id in counts && counts[id] > 1
  {
    forall id ensures id in Repeated(keys, |keys|) <==> id in counts && counts[id] > 1 {
      if id in counts {
        var k :| k in keys && k.id == id;
        var i :| 0 <= i < |keys| && keys[i] == k;
        CountPositive(keys, id, |keys|);
        CountIsOne(keys, i);
      }
      if id in Repeated(keys, |keys|) {
        var i: nat :| i < |keys| && !Lone(keys, i) && keys[i].id == id;
        assert keys[i] in keys;
        CountIsOne(keys, i);
      }
    }
  }

  /** resolveSteps. */
  method ResolveSteps(steps: seq<Step>, scope: Scope) returns (final: seq<Step>, dropped: seq<string>)
    ensures final == ResolvedSteps(steps, scope)
    ensures dropped == DroppedSteps(steps, scope)
  {
    hide AppliesTo, RefsResolve, ReadSet, StillBound, ReaderIds, Unbound;
    var kept: seq<Step> := [];
    var unbound: set<string> := {};
    dropped := [];
    NoneUnbound(scope);
    for i := 0 to |steps|
      invariant kept == Surviving(steps[..i], scope)
      invariant dropped == LostIds(steps[..i], scope)
      invariant unbound == Unbound(steps[..i], scope)
    {
      var st := steps[i];
      assert steps[..i + 1][..i] == steps[..i];
      UnboundSnoc(steps[..i], st, scope);
      assert steps[..i + 1] == steps[..i] + [st];
      if !AppliesTo(st.versionRange, scope.version)
         || (st.collect.Some? && !RefsResolve(st.collect.value.args, scope.signals))
         || (st.conclude.Some? && st.conclude.value.failureMode !in scope.modes)
      {
        if st.collect.Some? && st.collect.value.slot != "" {
          unbound := unbound + {st.collect.value.slot};
        }
        dropped := dropped + [st.id];
      } else {
        kept := kept + [st];
      }
    }
    assert steps[..|steps|] == steps;
    if unbound == {} {
      NothingUnbound(kept);
      return kept, dropped;
    }
    var readers;
    final, readers := DropReaders(kept, unbound);
    dropped := dropped + readers;
  }

  /** resolveSteps, its second pass. */
  method DropReaders(kept: seq<Step>, unbound: set<string>) returns (final: seq<Step>, dropped: seq<string>)
    ensures final == StillBound(kept, unbound)
    ensures dropped == ReaderIds(kept, unbound)
  {
    hide ReadsUnbound;
    final, dropped := [], [];
    for i := 0 to |kept|
      invariant final == StillBound(kept[..i], unbound)
      invariant dropped == ReaderIds(kept[..i], unbound)
    {
      assert kept[..i + 1][..i] == kept[..i];
      if ReadsUnbound(kept[i], unbound) {
        dropped := dropped + [kept[i].id];
      } else {
        final := final + [kept[i]];
      }
    }
    assert kept[..|kept|] == kept;
  }

  lemma NoneUnbound(scope: Scope)
    ensures Unbound([], scope) == {}
  {
  }

  lemma UnboundSnoc(steps: seq<Step>, st: Step, scope: Scope)
    ensures Unbound(steps + [st], scope)
         == Unbound(steps, scope)
            + (if !Survives(st, scope) && st.collect.Some? && st.collect.value.slot != "" then {st.collect.value.slot} else {})
  {
    var all := steps + [st];
    forall x ensures x in all <==> x in steps || x == st {
      assert all[|steps|] == st;
    }
  }

  lemma {:induction false} NothingUnbound(steps: seq<Step>)
    ensures StillBound(steps, {}) == steps && ReaderIds(steps, {}) == []
  {
    if steps != [] {
      NothingUnbound(steps[..|steps| - 1]);
    }
  }

  /** The second part of Resolve: each playbook follows what its steps depend on. */
  method ResolvePlaybooks(playbooks: seq<Playbook>, scope: Scope) returns (kept: seq<Playbook>, notes: seq<Note>)
    ensures kept == ResolvedPlaybooks(playbooks, scope)
    ensures notes == PlaybookNotes(playbooks, scope)
  {
    hide ResolvedSteps;
    hide DroppedSteps;
    hide CanConclude;
    kept, notes := [], [];
    for i := 0 to |playbooks|
      invariant kept == ResolvedPlaybooks(playbooks[..i], scope)
      invariant notes == PlaybookNotes(playbooks[..i], scope)
    {
      var pb := playbooks[i];
      assert playbooks[..i + 1][..i] == playbooks[..i];
      var steps, dropped := ResolveSteps(pb.steps, scope);
      notes := notes + StepNotes(pb, dropped);
      if !CanConclude(steps) {
        notes := notes + [Note("playbook", pb.id)];
      } else {
        kept := kept + [pb.(steps := steps)];
      }
    }
    assert playbooks[..|playbooks|] == playbooks;
  }

  /** Pack.Resolve. The receiver is a value, so nothing can write to the library's copy. */
  method ResolvePack(p: Pack, version: string) returns (out: Pack, gaps: multiset<Gap>)
    ensures out == ResolvedPack(p, version)
    ensures gaps == ResolutionGaps(p, version)
  {
    hide ResolvedRules;
    hide SkippedOf;
    hide VariantGaps;
    hide ResolvedPlaybooks;
    hide PlaybookNotes;
    hide Ids;
    var signals, g1, n1 := ResolveRules(p.signals, SignalKey, "signal", version);
    var patterns, g2, n2 := ResolveRules(p.logPatterns, PatternKey, "logPattern", version);
    var modes, g3, n3 := ResolveRules(p.failureModes, ModeKey, "failureMode", version);
    var inspect, g4, n4 := ResolveRules(p.inspect, InspectKey, "inspect", version);
    var playbooks, g5, n5 := ResolveRules(p.playbooks, PlaybookKey, "playbook", version);
    gaps := g1 + g2 + g3 + g4 + g5;
    var scope := Scope(version, Ids(Keys(signals, SignalKey)), Ids(Keys(modes, ModeKey)));
    var kept, notes := ResolvePlaybooks(playbooks, scope);
    var skipped := n1 + n2 + n3 + n4 + n5 + notes;
    if skipped != [] {
      gaps := gaps + multiset{NotApplicable(multiset(skipped))};
    }
    out := p.(signals := signals, logPatterns := patterns, failureModes := modes, inspect := inspect,
              playbooks := kept, metadata := p.metadata.(resolvedFor := version));
  }
}
