/** From the check at load to the report: what a run on an admitted pack can never say. */
module AdmittedRuns {
  import opened Basics
  import opened GoStrings
  import opened Packs
  import opened Validate
  import opened Engine
  import opened PlaybookOutput
  import Resolve
  import PackResolution
  import PackAdmission

  /** A finding one can act on: graded, as sure as a probability, and saying something. */
  ghost predicate Presentable(f: Finding)
  {
    f.severity in {"critical", "major", "minor", "info"} && 0.0 <= f.confidence <= 1.0 && !Blank(f.statement)
  }

  /** A mode one can explain and advise on, in both languages. */
  ghost predicate Explained(m: FailureMode)
  {
    && m.id != "" && !Blank(m.title.en) && !Blank(m.title.zh)
    && (Blank(m.explanation.en) <==> Blank(m.explanation.zh))
    && (m.severity == "" || m.severity in {"critical", "major", "minor", "info"})
    && forall a :: a in m.recommendations ==>
         a.risk in {"low", "medium", "high"} && !Blank(a.statement.en) && !Blank(a.statement.zh)
  }

  /** A complete text speaks the language it is asked for, English unless that is Chinese. */
  lemma CompleteSpeaks(t: Text, lang: string)
    requires t.Complete()
    ensures !Blank(t.In(lang)) && t.In(lang) == if lang == "zh" then t.zh else t.en
  {
    hide Blank;
  }

  lemma BranchIsPresentable(b: Option<Branch>, st: Step, lang: string)
    requires BranchOk(b)
    ensures forall f :: f in Reported(b, st, lang).findings ==> Presentable(f)
    ensures forall text :: text in Reported(b, st, lang).passed ==> PassOf(b, lang, text)
  {
    hide Blank;
    BlankIsEmptyOrMore();
    if b.Some? {
      if b.value.finding.Some? {
        CompleteSpeaks(b.value.finding.value.statement, lang);
        assert Presentable(Finding(st.id, if Blank(b.value.finding.value.severity) then "major"
                                          else b.value.finding.value.severity,
                                   b.value.finding.value.confidence, b.value.finding.value.statement.In(lang)));
      }
    }
  }

  /** The text is what the branch says of a check that passed, and it says it in both languages or in neither. */
  ghost predicate PassOf(b: Option<Branch>, lang: string, text: string)
  {
    && b.Some? && text == b.value.pass.In(lang) && text != ""
    && (Blank(b.value.pass.en) <==> Blank(b.value.pass.zh))
  }

  ghost predicate PassIn(n: Input, text: string)
  {
    exists st :: st in n.playbook.steps && (PassOf(st.onTrue, n.language, text) || PassOf(st.onFalse, n.language, text))
  }

  lemma BlankIsEmptyOrMore()
    ensures Blank("")
  {
  }

  /** What one step of an admitted playbook may give. */
  ghost predicate Sober(out: Output, n: Input)
  {
    && (forall f :: f in out.findings ==> Presentable(f))
    && (forall text :: text in out.passed ==> PassIn(n, text))
    && (forall mode :: mode in out.conclusions ==> exists m :: m in n.pack.failureModes && m.id == mode && Explained(m))
  }

  lemma ModeIsExplained(q: Pack, compiles: string -> bool, m: FailureMode)
    requires Admissible(q, compiles) && m in q.failureModes
    ensures Explained(m)
  {
    hide RangeOk, Blank, HeaderOk, VariantsOk;
    var i :| 0 <= i < |q.failureModes| && q.failureModes[i] == m;
    assert ModeOk(q.failureModes[i]);
  }

  lemma StepIsSober(w: World, n: Input, compiles: string -> bool, j: nat)
    requires Admissible(n.pack, compiles) && n.playbook in n.pack.playbooks && j < |n.playbook.steps|
    ensures Sober(Given(w, n, j), n)
  {
    hide Admissible, RangeOk, RefsResolve, BranchOk, Verdict, Wants, Unmeasured, Reported, Explained, Presentable, PassOf;
    var st := n.playbook.steps[j];
    PackResolution.AdmittedSteps(n.pack, compiles, n.playbook);
    assert st in n.playbook.steps;
    BranchIsPresentable(st.onTrue, st, n.language);
    BranchIsPresentable(st.onFalse, st, n.language);
    ReportedConcludesNothing(st.onTrue, st, n.language);
    ReportedConcludesNothing(st.onFalse, st, n.language);
    forall m | m in n.pack.failureModes ensures Explained(m) {
      ModeIsExplained(n.pack, compiles, m);
    }
  }

  lemma ReportedConcludesNothing(b: Option<Branch>, st: Step, lang: string)
    ensures Reported(b, st, lang).conclusions == []
  {
  }

  lemma {:induction false} StepsAreSober(w: World, n: Input, compiles: string -> bool, k: nat)
    requires Admissible(n.pack, compiles) && n.playbook in n.pack.playbooks && k <= |n.playbook.steps|
    ensures Sober(GivenUpTo(w, n, k), n)
  {
    hide Admissible, Given, Explained, Presentable, PassIn;
    if k > 0 {
      StepsAreSober(w, n, compiles, k - 1);
      StepIsSober(w, n, compiles, k - 1);
    }
  }

  lemma EndIsSober(w: World, n: Input, k: nat, s: State, err: Option<string>)
    requires k <= |n.playbook.steps| && EndedAfter(w, n, k, s, err) && Sober(GivenUpTo(w, n, k), n)
    ensures Sober(s.out, n)
  {
    hide GivenUpTo, StopsAt, Fails, FailsAt, Undisturbed, Explained, Presentable, PassIn;
    var out := GivenUpTo(w, n, k);
    assert out.findings + [] == out.findings && out.conclusions + [] == out.conclusions && out.passed + [] == out.passed;
  }

  /**
   * End to end, for every admitted pack, every version, all tools and all answers of the expression language: a run
   * reports only graded findings with a statement and a confidence between 0 and 1, passes only checks that say so
   * in both languages, and concludes only modes that the pack it ran on explains in both.
   */
  lemma AdmittedRunsAreSober(p: Pack, compiles: string -> bool, version: string, w: World, n: Input)
    requires Admissible(p, compiles)
    requires n.pack == Resolve.ResolvedPack(p, version) && n.playbook in n.pack.playbooks
    ensures Sober(RunFrom(w, n, 0, FRESH).0.out, n)
  {
    hide Admissible, Resolve.ResolvedPack, Sober, EndedAfter, RunFrom;
    PackAdmission.ResolvedStaysAdmissible(p, compiles, version);
    var k := WholeRunMeans(w, n);
    StepsAreSober(w, n, compiles, k);
    EndIsSober(w, n, k, RunFrom(w, n, 0, FRESH).0, RunFrom(w, n, 0, FRESH).1);
  }

  // --- what the rules of an admitted pack are made of ---------------------------------------------

  lemma AdmittedAll<T(!new)>(rules: seq<T>, key: T -> Key, ok: T -> bool)
    requires Admitted(rules, key, ok)
    ensures forall x :: x in rules ==> ok(x)
  {
    hide VariantsOk;
  }

  /** Every rule has a name, something to run or to match, and a text in both languages; every pattern compiles. */
  lemma AdmittedRulesAreWhole(p: Pack, compiles: string -> bool)
    requires Admissible(p, compiles)
    ensures p.apiVersion == "mas.turbo/v1" && p.kind == "KnowledgePack"
    ensures p.metadata.middleware != "" && p.metadata.name != "" && p.metadata.version != ""
    ensures forall s :: s in p.signals ==>
              s.id != "" && s.promql != "" && !Blank(s.description.en) && !Blank(s.description.zh)
    ensures forall l :: l in p.logPatterns ==>
              && l.id != "" && compiles(l.regex) && !Blank(l.meaning.en) && !Blank(l.meaning.zh)
              && (l.severity == "" || l.severity in {"critical", "major", "minor", "info"})
    ensures forall x :: x in p.inspect ==>
              x.id != "" && x.binary != "" && !Blank(x.description.en) && !Blank(x.description.zh)
  {
    hide RangeOk, Blank, Admitted, PlaybookOk;
    AdmittedAll(p.signals, SignalKey, SignalOk);
    AdmittedAll(p.logPatterns, PatternKey, PatternCheck(compiles));
    AdmittedAll(p.inspect, InspectKey, InspectOk);
  }

  function Flag(b: bool): (n: nat)
  {
    if b then 1 else 0
  }

  /** Every step does exactly one of the three things a step can do, and a collect says with what and for whom. */
  lemma AdmittedStepsAct(p: Pack, compiles: string -> bool, pb: Playbook, st: Step)
    requires Admissible(p, compiles) && pb in p.playbooks && st in pb.steps
    ensures Flag(st.collect.Some?) + Flag(st.evaluate != "") + Flag(st.conclude.Some?) == 1
    ensures st.id != "" && pb.id != "" && !Blank(pb.title.en) && !Blank(pb.title.zh)
    ensures st.collect.Some? ==> st.collect.value.tool != "" && st.collect.value.slot != ""
    ensures st.conclude.Some? ==> exists m :: m in p.failureModes && m.id == st.conclude.value.failureMode
  {
    hide RangeOk, Blank, Admissible, RefsResolve, BranchOk, Admitted;
    PackResolution.AdmittedSteps(p, compiles, pb);
    if st.conclude.Some? {
      var keys := Keys(p.failureModes, ModeKey);
      var i :| 0 <= i < |keys| && keys[i].id == st.conclude.value.failureMode;
      assert p.failureModes[i] in p.failureModes;
    }
  }

  // --- such packs exist --------------------------------------------------------------------------

  /** A pack with a rule of every kind, one of each two alternatives where there are two. */
  function Sample(): (p: Pack)
  {
    var said, nothing := Text("t", "t"), Text("", "");
    var bad := Some(Branch(Some(StepFinding("minor", 0.5, said, nothing)), nothing, false));
    var good := Some(Branch(None, said, true));
    var look := Step("look", "", Some(Collect("tool", map["q" := Str("up")], "m")), "", None, None, None);
    var judge := Step("judge", "", None, "m", bad, good, None);
    var conclude := Step("conclude", "", None, "", None, None, Some(Conclude("first", "")));
    Pack(API_VERSION, KIND, Metadata("m", "n", "1", "", ""),
         [Signal("up", "", "up", said)], [LogPattern("log", "", "x", "info", said)],
         [FailureMode("first", "", said, nothing, "", [Advice("low", said, nothing)]),
          FailureMode("second", "", said, said, "critical", [])],
         [Playbook("book", "", said, [look, judge, conclude])],
         [Inspect("see", "", "top", [], said)])
  }

  lemma PlainArgsResolve(signals: set<string>)
    ensures RefsResolve(map["q" := Str("up")], signals)
  {
    var s := "up";
    assert s[1..] == "p" && "p"[1..] == "";
    assert Pieces("p") == [Plain('p')] + Pieces("");
    assert Pieces(s) == [Plain('u')] + Pieces("p");
  }

  /** The check at load is not so strict that nothing passes: this pack does, with rules of every kind. */
  lemma SampleIsAdmissible(compiles: string -> bool)
    requires compiles("x")
    ensures Admissible(Sample(), compiles)
  {
    PackAdmission.SaidIsComplete();
    PackAdmission.EmptyRangeIsOk();
    var p := Sample();
    PlainArgsResolve(SignalIds(p));
    hide RangeOk, Blank, RefsResolve, Clash;
    var keys := Keys(p.failureModes, ModeKey);
    assert keys[0] in keys && "first" in ModeIds(p);
  }
}
