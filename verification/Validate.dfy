/** Pack.Validate: exactly which packs are admitted at load. */
module Validate {
  import opened Basics
  import opened GoStrings
  import opened VersionRanges
  import opened Packs

  const API_VERSION := "mas.turbo/v1"
  const KIND := "KnowledgePack"
  const SEVERITIES: set<string> := {"critical", "major", "minor", "info"}
  const RISKS: set<string> := {"low", "medium", "high"}

  // --- what an admitted pack looks like ------------------------------------------

  predicate RangeOk(raw: string)
  {
    ParsedRange(raw).Ok?
  }

  predicate SeverityOk(severity: string)
  {
    severity == "" || severity in SEVERITIES
  }

  predicate SignalOk(s: Signal)
  {
    s.id != "" && RangeOk(s.versionRange) && s.promql != "" && s.description.Complete()
  }

  predicate PatternOk(lp: LogPattern, compiles: string -> bool)
  {
    lp.id != "" && RangeOk(lp.versionRange) && compiles(lp.regex) && SeverityOk(lp.severity) && lp.meaning.Complete()
  }

  predicate AdviceOk(a: Advice)
  {
    a.risk in RISKS && a.statement.Complete()
  }

  predicate ModeOk(f: FailureMode)
  {
    && f.id != "" && RangeOk(f.versionRange) && f.title.Complete()
    && (f.explanation.Empty() || f.explanation.Complete())
    && SeverityOk(f.severity)
    && forall i :: 0 <= i < |f.recommendations| ==> AdviceOk(f.recommendations[i])
  }

  predicate InspectOk(n: Inspect)
  {
    n.id != "" && RangeOk(n.versionRange) && n.binary != "" && n.description.Complete()
  }

  predicate BranchOk(b: Option<Branch>)
  {
    b.Some? ==>
      && (b.value.finding.Some? ==>
            var f := b.value.finding.value;
            f.statement.Complete() && SeverityOk(f.severity) && 0.0 <= f.confidence <= 1.0)
      && (b.value.pass.Empty() || b.value.pass.Complete())
  }

  /** A step is exactly one of collect, evaluate and conclude. */
  predicate OneKind(st: Step)
  {
    || (st.collect.Some? && st.evaluate == "" && st.conclude.None?)
    || (st.collect.None? && st.evaluate != "" && st.conclude.None?)
    || (st.collect.None? && st.evaluate == "" && st.conclude.Some?)
  }

  predicate StepOk(st: Step, signals: set<string>, modes: set<string>)
  {
    && st.id != "" && RangeOk(st.versionRange) && OneKind(st)
    && (st.collect.Some? ==>
          st.collect.value.tool != "" && st.collect.value.slot != "" && RefsResolve(st.collect.value.args, signals))
    && (st.conclude.Some? ==> st.conclude.value.failureMode in modes)
    && BranchOk(st.onTrue) && BranchOk(st.onFalse)
  }

  function PatternCheck(compiles: string -> bool): (r: LogPattern -> bool)
  {
    lp => PatternOk(lp, compiles)
  }

  function StepCheck(signals: set<string>, modes: set<string>): (r: Step -> bool)
  {
    st => StepOk(st, signals, modes)
  }

  /** The declarations of one rule kind: every one is well formed and ids repeat only as variants. */
  ghost predicate Admitted<T(!new)>(rules: seq<T>, key: T -> Key, ok: T -> bool)
  {
    VariantsOk(Keys(rules, key)) && forall i :: 0 <= i < |rules| ==> ok(rules[i])
  }

  ghost predicate PlaybookOk(pb: Playbook, signals: set<string>, modes: set<string>)
  {
    && pb.id != "" && RangeOk(pb.versionRange) && pb.title.Complete() && pb.steps != []
    && Admitted(pb.steps, StepKey, StepCheck(signals, modes))
  }

  ghost function PlaybookCheck(signals: set<string>, modes: set<string>): (r: Playbook -> bool)
  {
    pb => PlaybookOk(pb, signals, modes)
  }

  ghost predicate HeaderOk(p: Pack)
  {
    && p.apiVersion == API_VERSION && p.kind == KIND
    && p.metadata.middleware != "" && p.metadata.name != "" && p.metadata.version != ""
    && RangeOk(p.metadata.versionRange)
  }

  function SignalIds(p: Pack): (r: set<string>) { Ids(Keys(p.signals, SignalKey)) }

  function ModeIds(p: Pack): (r: set<string>) { Ids(Keys(p.failureModes, ModeKey)) }

  ghost predicate Admissible(p: Pack, compiles: string -> bool)
  {
    && HeaderOk(p)
    && Admitted(p.signals, SignalKey, SignalOk)
    && Admitted(p.logPatterns, PatternKey, PatternCheck(compiles))
    && Admitted(p.failureModes, ModeKey, ModeOk)
    && Admitted(p.playbooks, PlaybookKey, PlaybookCheck(SignalIds(p), ModeIds(p)))
    && Admitted(p.inspect, InspectKey, InspectOk)
  }

  // --- the check itself -----------------------------------------------------------

  /**
   * One declaration's id and range: the part every rule kind shares. It fails exactly when the id is
   * missing, the range does not parse, or the declarations so far rule this one out.
   */
  method Declare(tracker: IdTracker, k: Key, path: string, ghost keys: seq<Key>) returns (err: Option<string>)
    requires tracker.Tracks(keys) && VariantsOk(keys)
    modifies tracker
    ensures err.None? <==> k.id != "" && RangeOk(k.range) && VariantsOk(keys + [k])
    ensures err.None? ==> tracker.Tracks(keys + [k])
    ensures err.Some? ==> err.value in {"MAS-5001", "MAS-5016"}
  {
    if k.id == "" {
      return Some("MAS-5001");
    }
    if !Blank(k.range) {
      var vr := ParseVersionRange(k.range);
      if vr.Err? {
        return Some("MAS-5001");
      }
    }
    err := tracker.Add(k.id, k.range, path, keys);
  }

  lemma AdmittedNone<T(!new)>(key: T -> Key, ok: T -> bool)
    ensures Admitted([], key, ok) && Keys([], key) == []
  {
  }

  lemma KeysPrefix<T(!new)>(rules: seq<T>, key: T -> Key, n: nat)
    requires n <= |rules|
    ensures Keys(rules[..n], key) == Keys(rules, key)[..n]
  {
  }

  lemma AdmittedPrefix<T(!new)>(rules: seq<T>, key: T -> Key, ok: T -> bool, n: nat)
    requires n <= |rules| && Admitted(rules, key, ok)
    ensures Admitted(rules[..n], key, ok)
  {
    KeysPrefix(rules, key, n);
    VariantsOkPrefix(Keys(rules, key), n);
    hide Keys, VariantsOk;
    forall k | 0 <= k < n ensures ok(rules[..n][k]) {
      assert rules[..n][k] == rules[k];
    }
  }

  lemma AdmittedSnoc<T(!new)>(rules: seq<T>, r: T, key: T -> Key, ok: T -> bool)
    ensures Keys(rules + [r], key) == Keys(rules, key) + [key(r)]
    ensures Admitted(rules + [r], key, ok) <==> Admitted(rules, key, ok) && VariantsOk(Keys(rules, key) + [key(r)]) && ok(r)
  {
    var all := rules + [r];
    assert Keys(all, key) == Keys(rules, key) + [key(r)];
    hide Keys, VariantsOk;
    if Admitted(all, key, ok) {
      AdmittedPrefix(all, key, ok, |rules|);
      assert all[..|rules|] == rules && all[|rules|] == r;
    }
  }

  lemma AdmittedStep<T(!new)>(rules: seq<T>, key: T -> Key, ok: T -> bool, i: nat)
    requires i < |rules|
    ensures Keys(rules[..i + 1], key) == Keys(rules[..i], key) + [key(rules[i])]
    ensures Admitted(rules[..i], key, ok) ==> VariantsOk(Keys(rules[..i], key))
    ensures Admitted(rules[..i + 1], key, ok)
            <==> Admitted(rules[..i], key, ok) && VariantsOk(Keys(rules[..i], key) + [key(rules[i])]) && ok(rules[i])
    ensures Admitted(rules, key, ok) ==> Admitted(rules[..i + 1], key, ok)
    ensures rules[..|rules|] == rules
  {
    assert rules[..i + 1] == rules[..i] + [rules[i]];
    AdmittedSnoc(rules[..i], rules[i], key, ok);
    if Admitted(rules, key, ok) {
      AdmittedPrefix(rules, key, ok, i + 1);
    }
    hide Keys, VariantsOk;
  }

  method ValidateSignals(signals: seq<Signal>) returns (err: Option<string>, ids: IdTracker)
    ensures fresh(ids)
    ensures err.None? <==> Admitted(signals, SignalKey, SignalOk)
    ensures err.None? ==> ids.Tracks(Keys(signals, SignalKey))
    ensures err.Some? ==> err.value in {"MAS-5001", "MAS-5016"}
  {
    hide RangeOk, Admitted, Blank, IdTracker.Tracks;
    ids := new IdTracker();
    AdmittedNone(SignalKey, SignalOk);
    assert signals[..0] == [] && signals[..|signals|] == signals;
    for i := 0 to |signals|
      invariant fresh(ids) && ids.Tracks(Keys(signals[..i], SignalKey))
      invariant Admitted(signals[..i], SignalKey, SignalOk)
    {
      var s := signals[i];
      AdmittedStep(signals, SignalKey, SignalOk, i);
      err := Declare(ids, SignalKey(s), "signals", Keys(signals[..i], SignalKey));
      if err.Some? {
        return;
      }
      if s.promql == "" || !s.description.Complete() {
        return Some("MAS-5001"), ids;
      }
    }
    return None, ids;
  }

  method ValidatePatterns(patterns: seq<LogPattern>, compiles: string -> bool) returns (err: Option<string>)
    ensures err.None? <==> Admitted(patterns, PatternKey, PatternCheck(compiles))
    ensures err.Some? ==> err.value in {"MAS-5001", "MAS-5016"}
  {
    hide RangeOk, Admitted, Blank, IdTracker.Tracks;
    var ids := new IdTracker();
    ghost var ok := PatternCheck(compiles);
    AdmittedNone(PatternKey, ok);
    assert patterns[..0] == [] && patterns[..|patterns|] == patterns;
    for i := 0 to |patterns|
      invariant fresh(ids) && ids.Tracks(Keys(patterns[..i], PatternKey))
      invariant Admitted(patterns[..i], PatternKey, ok)
    {
      var lp := patterns[i];
      AdmittedStep(patterns, PatternKey, ok, i);
      err := Declare(ids, PatternKey(lp), "logPatterns", Keys(patterns[..i], PatternKey));
      if err.Some? {
        return;
      }
      if !compiles(lp.regex) || !SeverityOk(lp.severity) || !lp.meaning.Complete() {
        return Some("MAS-5001");
      }
    }
    return None;
  }

  method ValidateAdvice(advice: seq<Advice>) returns (err: Option<string>)
    ensures err.None? <==> forall i :: 0 <= i < |advice| ==> AdviceOk(advice[i])
    ensures err.Some? ==> err.value == "MAS-5001"
  {
    for j := 0 to |advice|
      invariant forall k :: 0 <= k < j ==> AdviceOk(advice[k])
    {
      if advice[j].risk !in RISKS || !advice[j].statement.Complete() {
        return Some("MAS-5001");
      }
    }
    return None;
  }

  method ValidateModes(modes: seq<FailureMode>) returns (err: Option<string>, ids: IdTracker)
    ensures fresh(ids)
    ensures err.None? <==> Admitted(modes, ModeKey, ModeOk)
    ensures err.None? ==> ids.Tracks(Keys(modes, ModeKey))
    ensures err.Some? ==> err.value in {"MAS-5001", "MAS-5016"}
  {
    hide RangeOk, Admitted, Blank, IdTracker.Tracks;
    ids := new IdTracker();
    AdmittedNone(ModeKey, ModeOk);
    assert modes[..0] == [] && modes[..|modes|] == modes;
    for i := 0 to |modes|
      invariant fresh(ids) && ids.Tracks(Keys(modes[..i], ModeKey))
      invariant Admitted(modes[..i], ModeKey, ModeOk)
    {
      var f := modes[i];
      AdmittedStep(modes, ModeKey, ModeOk, i);
      err := Declare(ids, ModeKey(f), "failureModes", Keys(modes[..i], ModeKey));
      if err.Some? {
        return;
      }
      if !f.title.Complete() || (!f.explanation.Empty() && !f.explanation.Complete()) || !SeverityOk(f.severity) {
        return Some("MAS-5001"), ids;
      }
      err := ValidateAdvice(f.recommendations);
      if err.Some? {
        return;
      }
    }
    return None, ids;
  }

  /** The part of a step's check that follows its declaration. */
  method ValidateStep(st: Step, signals: IdTracker, modes: IdTracker, ghost signalKeys: seq<Key>, ghost modeKeys: seq<Key>)
    returns (err: Option<string>)
    requires signals.Tracks(signalKeys) && modes.Tracks(modeKeys)
    requires st.id != "" && RangeOk(st.versionRange)
    ensures err.None? <==> StepOk(st, Ids(signalKeys), Ids(modeKeys))
    ensures err == Some("MAS-5014") <==> !OneKind(st)
    ensures err.Some? ==> err.value in {"MAS-5001", "MAS-5012", "MAS-5014"}
    ensures err == Some("MAS-5012") ==> st.collect.Some? && !RefsResolve(st.collect.value.args, Ids(signalKeys))
  {
    DeclaredIsInIds(signals, signalKeys);
    DeclaredIsInIds(modes, modeKeys);
    var declared := (if st.collect.Some? then 1 else 0) + (if st.evaluate != "" then 1 else 0)
      + (if st.conclude.Some? then 1 else 0);
    if declared != 1 {
      return Some("MAS-5014");
    }
    if st.collect.Some? {
      var c := st.collect.value;
      if c.tool == "" || c.slot == "" {
        return Some("MAS-5001");
      }
      if !RefsResolve(c.args, signals.seen.Keys) {
        return Some("MAS-5012");
      }
    }
    if st.conclude.Some? && !modes.Declared(st.conclude.value.failureMode) {
      return Some("MAS-5001");
    }
    if !BranchOk(st.onTrue) || !BranchOk(st.onFalse) {
      return Some("MAS-5001");
    }
    return None;
  }

  lemma DeclaredIsInIds(tracker: IdTracker, keys: seq<Key>)
    requires tracker.Tracks(keys)
    ensures tracker.seen.Keys == Ids(keys)
    ensures forall id :: tracker.Declared(id) <==> id in Ids(keys)
  {
    forall id ensures tracker.Declared(id) <==> id in Ids(keys) {
      RangesOfMembers(keys, id);
      if id in Ids(keys) {
        var k :| k in keys && k.id == id;
        assert k == Key(id, k.range) && k.range in RangesOf(keys, id);
      }
      if RangesOf(keys, id) != [] {
        var r := RangesOf(keys, id)[0];
        assert r in RangesOf(keys, id) && Key(id, r) in keys;
      }
    }
  }

  method ValidateSteps(steps: seq<Step>, signals: IdTracker, modes: IdTracker, ghost signalKeys: seq<Key>, ghost modeKeys: seq<Key>)
    returns (err: Option<string>)
    requires signals.Tracks(signalKeys) && modes.Tracks(modeKeys)
    ensures err.None? <==> Admitted(steps, StepKey, StepCheck(Ids(signalKeys), Ids(modeKeys)))
    ensures err.Some? ==> err.value in {"MAS-5001", "MAS-5012", "MAS-5014", "MAS-5016"}
  {
    hide RangeOk, Admitted, Blank, IdTracker.Tracks;
    var ids := new IdTracker();
    ghost var ok := StepCheck(Ids(signalKeys), Ids(modeKeys));
    AdmittedNone(StepKey, ok);
    assert steps[..0] == [] && steps[..|steps|] == steps;
    for j := 0 to |steps|
      invariant fresh(ids) && ids.Tracks(Keys(steps[..j], StepKey))
      invariant Admitted(steps[..j], StepKey, ok)
    {
      var st := steps[j];
      AdmittedStep(steps, StepKey, ok, j);
      err := Declare(ids, StepKey(st), "steps", Keys(steps[..j], StepKey));
      if err.Some? {
        return;
      }
      err := ValidateStep(st, signals, modes, signalKeys, modeKeys);
      if err.Some? {
        return;
      }
    }
    return None;
  }

  method ValidatePlaybooks(playbooks: seq<Playbook>, signals: IdTracker, modes: IdTracker,
                           ghost signalKeys: seq<Key>, ghost modeKeys: seq<Key>)
    returns (err: Option<string>)
    requires signals.Tracks(signalKeys) && modes.Tracks(modeKeys)
    ensures err.None? <==> Admitted(playbooks, PlaybookKey, PlaybookCheck(Ids(signalKeys), Ids(modeKeys)))
    ensures err.Some? ==> err.value in {"MAS-5001", "MAS-5012", "MAS-5014", "MAS-5016"}
  {
    hide RangeOk, Admitted, Blank, IdTracker.Tracks;
    var ids := new IdTracker();
    ghost var ok := PlaybookCheck(Ids(signalKeys), Ids(modeKeys));
    AdmittedNone(PlaybookKey, ok);
    assert playbooks[..0] == [] && playbooks[..|playbooks|] == playbooks;
    for i := 0 to |playbooks|
      invariant fresh(ids) && ids.Tracks(Keys(playbooks[..i], PlaybookKey))
      invariant Admitted(playbooks[..i], PlaybookKey, ok)
    {
      var pb := playbooks[i];
      AdmittedStep(playbooks, PlaybookKey, ok, i);
      err := Declare(ids, PlaybookKey(pb), "playbooks", Keys(playbooks[..i], PlaybookKey));
      if err.Some? {
        return;
      }
      if !pb.title.Complete() || pb.steps == [] {
        return Some("MAS-5001");
      }
      err := ValidateSteps(pb.steps, signals, modes, signalKeys, modeKeys);
      if err.Some? {
        return;
      }
    }
    return None;
  }

  method ValidateInspect(commands: seq<Inspect>) returns (err: Option<string>)
    ensures err.None? <==> Admitted(commands, InspectKey, InspectOk)
    ensures err.Some? ==> err.value in {"MAS-5001", "MAS-5016"}
  {
    hide RangeOk, Admitted, Blank, IdTracker.Tracks;
    var ids := new IdTracker();
    AdmittedNone(InspectKey, InspectOk);
    assert commands[..0] == [] && commands[..|commands|] == commands;
    for i := 0 to |commands|
      invariant fresh(ids) && ids.Tracks(Keys(commands[..i], InspectKey))
      invariant Admitted(commands[..i], InspectKey, InspectOk)
    {
      var n := commands[i];
      AdmittedStep(commands, InspectKey, InspectOk, i);
      err := Declare(ids, InspectKey(n), "inspect", Keys(commands[..i], InspectKey));
      if err.Some? {
        return;
      }
      if n.binary == "" || !n.description.Complete() {
        return Some("MAS-5001");
      }
    }
    return None;
  }

  /** Pack.Validate: the loops admit a pack exactly when every declared promise about it holds. */
  method ValidatePack(p: Pack, compiles: string -> bool) returns (err: Option<string>)
    ensures err.None? <==> Admissible(p, compiles)
    ensures err == Some("MAS-5004") ==> !RangeOk(p.metadata.versionRange)
    ensures err.Some? ==> err.value in {"MAS-5001", "MAS-5004", "MAS-5012", "MAS-5014", "MAS-5016"}
  {
    hide Admitted, IdTracker.Tracks, Keys, Ids, PlaybookCheck, PatternCheck;
    if p.apiVersion != API_VERSION || p.kind != KIND || p.metadata.middleware == ""
       || p.metadata.name == "" || p.metadata.version == "" {
      return Some("MAS-5001");
    }
    var vr := ParseVersionRange(p.metadata.versionRange);
    if vr.Err? {
      return Some("MAS-5004");
    }
    var signalErr, signals := ValidateSignals(p.signals);
    if signalErr.Some? {
      return signalErr;
    }
    err := ValidatePatterns(p.logPatterns, compiles);
    if err.Some? {
      return;
    }
    var modeErr, modes := ValidateModes(p.failureModes);
    if modeErr.Some? {
      return modeErr;
    }
    err := ValidatePlaybooks(p.playbooks, signals, modes, Keys(p.signals, SignalKey), Keys(p.failureModes, ModeKey));
    if err.Some? {
      return;
    }
    err := ValidateInspect(p.inspect);
  }
}
