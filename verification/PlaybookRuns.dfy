/** What every run of a playbook guarantees, for any tools and any expression language. */
module PlaybookRuns {
  import opened Basics
  import opened Packs
  import opened Engine
  import Expr
  import Validate
  import Resolve
  import PackResolution

  // --- a resolved pack never dangles -------------------------------------------------------

  ghost predicate AllPrepared(out: Output)
  {
    forall g :: g in out.gaps ==> !g.Unprepared?
  }

  lemma ModeIsThere(pack: Pack, id: string)
    requires id in Validate.ModeIds(pack)
    ensures HasMode(pack, id)
  {
    var keys := Keys(pack.failureModes, ModeKey);
    var i :| 0 <= i < |keys| && keys[i].id == id;
    assert pack.failureModes[i] in pack.failureModes;
  }

  lemma {:induction false} ClosedRunsClean(w: World, n: Input, i: nat, s: State)
    requires PackResolution.ClosedPlaybook(n.playbook, Validate.SignalIds(n.pack), Validate.ModeIds(n.pack))
    requires AllPrepared(s.out)
    ensures var (s', err) := RunFrom(w, n, i, s); err != Some("MAS-5014") && AllPrepared(s'.out)
    decreases |n.playbook.steps| - i
  {
    hide RefsResolve, Resolve.CanConclude, Missing, EmptyMetrics;
    if i < |n.playbook.steps| && i < Limit(n) {
      var st := n.playbook.steps[i];
      assert st in n.playbook.steps;
      if st.collect.None? && st.evaluate == "" && st.conclude.Some? {
        ModeIsThere(n.pack, st.conclude.value.failureMode);
      }
      var (s', control) := AfterStep(w, n, i, st, s);
      assert AllPrepared(s'.out) && control != Fail("MAS-5014");
      ClosedRunsClean(w, n, i + 1, s');
    }
  }

  /**
   * Accepted or not, and for every version string: a playbook of a resolved pack never names a
   * signal or a failure mode the pack does not have, so MAS-5012 and MAS-5014 cannot arise.
   */
  lemma ResolvedRunsClean(p: Pack, version: string, w: World, n: Input)
    requires n.pack == Resolve.ResolvedPack(p, version) && n.playbook in n.pack.playbooks
    ensures var (s, err) := RunFrom(w, n, 0, FRESH); err != Some("MAS-5014") && AllPrepared(s.out)
  {
    hide Resolve.ResolvedPack;
    PackResolution.ResolvedIsClosed(p, version);
    ClosedRunsClean(w, n, 0, FRESH);
  }

  // --- nothing is judged that was not measured --------------------------------------------------

  /** The state before step `k` of a run that gets that far. */
  function StateAt(w: World, n: Input, k: nat): (s': State)
    requires k <= |n.playbook.steps|
  {
    if k == 0 then FRESH else AfterStep(w, n, k - 1, n.playbook.steps[k - 1], StateAt(w, n, k - 1)).0
  }

  /** Every run ends in the state after some number of its steps, cut off or not. */
  lemma {:induction false} RunReaches(w: World, n: Input, i: nat) returns (k: nat)
    requires i <= |n.playbook.steps| && i <= Limit(n)
    ensures i <= k <= |n.playbook.steps|
    ensures var s := RunFrom(w, n, i, StateAt(w, n, i)).0;
            s == StateAt(w, n, k) || (s == CutOff(StateAt(w, n, k), Limit(n)) && k == Limit(n))
    decreases |n.playbook.steps| - i
  {
    hide AfterStep;
    k := i;
    if i < |n.playbook.steps| && i < Limit(n) {
      var (s', control) := AfterStep(w, n, i, n.playbook.steps[i], StateAt(w, n, i));
      assert StateAt(w, n, i + 1) == s';
      k := i + 1;
      if control == Continue {
        k := RunReaches(w, n, i + 1);
      }
    }
  }

  /** Step `k` is a collect that bound `slot` to what its tool returned. */
  ghost predicate BoundAt(w: World, n: Input, k: nat, slot: string)
    requires k < |n.playbook.steps|
  {
    var st := n.playbook.steps[k];
    && st.collect.Some? && st.collect.value.slot == slot
    && var args := ExpandedArgs(st.collect.value.args, n.pack.signals, n.selector);
       args.Ok? && w.invoke(k, st.collect.value.tool, args.value).Ok?
  }

  ghost predicate BoundBefore(w: World, n: Input, k: nat, slot: string)
    requires k <= |n.playbook.steps|
  {
    exists j :: 0 <= j < k && BoundAt(w, n, j, slot)
  }

  /** A step binds a slot or none; no slot is ever unbound. */
  lemma StepBinds(w: World, n: Input, k: nat, slot: string)
    requires k < |n.playbook.steps|
    ensures slot in StateAt(w, n, k + 1).env <==> slot in StateAt(w, n, k).env || BoundAt(w, n, k, slot)
  {
    hide ExpandedArgs, Missing, EmptyMetrics;
    assert StateAt(w, n, k + 1) == AfterStep(w, n, k, n.playbook.steps[k], StateAt(w, n, k)).0;
  }

  /** What is in the environment is exactly what the collects before have bound. */
  lemma {:induction false} EnvIsCollected(w: World, n: Input, k: nat)
    requires k <= |n.playbook.steps|
    ensures forall slot :: slot in StateAt(w, n, k).env <==> BoundBefore(w, n, k, slot)
  {
    hide BoundAt;
    if k > 0 {
      EnvIsCollected(w, n, k - 1);
      hide StateAt;
      forall slot ensures slot in StateAt(w, n, k).env <==> BoundBefore(w, n, k, slot) {
        StepBinds(w, n, k - 1, slot);
        if BoundBefore(w, n, k, slot) && !BoundAt(w, n, k - 1, slot) {
          var j :| 0 <= j < k && BoundAt(w, n, j, slot);
          assert BoundBefore(w, n, k - 1, slot);
        }
      }
    }
  }

  /** Step `k` reached a verdict: all it reads was collected, and a false one rests on no empty metric. */
  ghost predicate VerdictAt(w: World, n: Input, k: nat, held: bool)
    requires k < |n.playbook.steps|
  {
    var st, env := n.playbook.steps[k], StateAt(w, n, k).env;
    && st.collect.None? && st.evaluate != ""
    && w.evaluate(st.evaluate, env) == Value(held)
    && Missing(st.evaluate, env) == {}
    && (!held ==> EmptyMetrics(st.evaluate, env) == {})
  }

  ghost predicate Reached(w: World, n: Input, k: nat, j: int, held: bool)
    requires k <= |n.playbook.steps|
  {
    0 <= j < k && VerdictAt(w, n, j, held)
  }

  function BranchOf(st: Step, held: bool): (r: Option<Branch>)
  {
    if held then st.onTrue else st.onFalse
  }

  ghost predicate FindingFrom(n: Input, j: int, held: bool, f: Finding)
  {
    0 <= j < |n.playbook.steps| &&
    var st := n.playbook.steps[j];
    var b := BranchOf(st, held);
    && b.Some? && b.value.finding.Some? && f.origin == st.id
    && f.confidence == b.value.finding.value.confidence
    && f.statement == b.value.finding.value.statement.In(n.language)
  }

  ghost predicate PassFrom(n: Input, j: int, held: bool, text: string)
  {
    0 <= j < |n.playbook.steps| &&
    var b := BranchOf(n.playbook.steps[j], held);
    b.Some? && text == b.value.pass.In(n.language) && text != ""
  }

  ghost predicate Grounded(w: World, n: Input, k: nat, out: Output)
    requires k <= |n.playbook.steps|
  {
    && (forall f :: f in out.findings ==> exists j, held :: Reached(w, n, k, j, held) && FindingFrom(n, j, held, f))
    && (forall text :: text in out.passed ==> exists j, held :: Reached(w, n, k, j, held) && PassFrom(n, j, held, text))
  }

  lemma GroundedGrows(w: World, n: Input, k: nat, out: Output)
    requires k < |n.playbook.steps| && Grounded(w, n, k, out)
    ensures Grounded(w, n, k + 1, out)
  {
    hide VerdictAt, FindingFrom, PassFrom;
    forall f | f in out.findings ensures exists j, held :: Reached(w, n, k + 1, j, held) && FindingFrom(n, j, held, f) {
      var j, held :| Reached(w, n, k, j, held) && FindingFrom(n, j, held, f);
      assert Reached(w, n, k + 1, j, held);
    }
    forall text | text in out.passed ensures exists j, held :: Reached(w, n, k + 1, j, held) && PassFrom(n, j, held, text) {
      var j, held :| Reached(w, n, k, j, held) && PassFrom(n, j, held, text);
      assert Reached(w, n, k + 1, j, held);
    }
  }

  lemma VerdictIsGrounded(w: World, n: Input, k: nat, held: bool)
    requires k < |n.playbook.steps| && VerdictAt(w, n, k, held) && Grounded(w, n, k + 1, StateAt(w, n, k).out)
    ensures var st := n.playbook.steps[k];
            Grounded(w, n, k + 1, Judgement(BranchOf(st, held), st, n.language, StateAt(w, n, k)).0.out)
  {
    hide VerdictAt, StateAt;
    var st, s := n.playbook.steps[k], StateAt(w, n, k);
    var out := Judgement(BranchOf(st, held), st, n.language, s).0.out;
    assert Reached(w, n, k + 1, k, held);
    forall f | f in out.findings
      ensures exists j, h :: Reached(w, n, k + 1, j, h) && FindingFrom(n, j, h, f)
    {
      if f !in s.out.findings {
        assert FindingFrom(n, k, held, f);
      }
    }
    forall text | text in out.passed
      ensures exists j, h :: Reached(w, n, k + 1, j, h) && PassFrom(n, j, h, text)
    {
      if text !in s.out.passed {
        assert PassFrom(n, k, held, text);
      }
    }
  }

  lemma {:induction false} OutputIsGrounded(w: World, n: Input, k: nat)
    requires k <= |n.playbook.steps|
    ensures Grounded(w, n, k, StateAt(w, n, k).out)
  {
    hide VerdictAt, Judgement, AfterStep, FindingFrom, PassFrom, Reached;
    if k > 0 {
      OutputIsGrounded(w, n, k - 1);
      var st, s := n.playbook.steps[k - 1], StateAt(w, n, k - 1);
      GroundedGrows(w, n, k - 1, s.out);
      StepOutput(w, n, k - 1);
      if VerdictAt(w, n, k - 1, true) {
        VerdictIsGrounded(w, n, k - 1, true);
      } else if VerdictAt(w, n, k - 1, false) {
        VerdictIsGrounded(w, n, k - 1, false);
      }
    }
  }

  /** Findings and passes grow only by a verdict. */
  lemma StepOutput(w: World, n: Input, k: nat)
    requires k < |n.playbook.steps|
    ensures var st, s, s' := n.playbook.steps[k], StateAt(w, n, k), StateAt(w, n, k + 1);
            && (VerdictAt(w, n, k, true) ==> s' == Judgement(st.onTrue, st, n.language, s).0)
            && (VerdictAt(w, n, k, false) ==> s' == Judgement(st.onFalse, st, n.language, s).0)
            && (!VerdictAt(w, n, k, true) && !VerdictAt(w, n, k, false) ==>
                  s'.out.findings == s.out.findings && s'.out.passed == s.out.passed)
  {
    hide Missing, EmptyMetrics, ExpandedArgs, Judgement;
    var st, s := n.playbook.steps[k], StateAt(w, n, k);
    assert StateAt(w, n, k + 1) == AfterStep(w, n, k, st, s).0;
  }

  /**
   * Nothing is reported that was not measured: every finding and every passed check of a run comes
   * from a step that got a verdict, all of whose slots were bound by earlier collects of that run,
   * and a false verdict rests on no metric that came back empty.
   */
  lemma EveryReportWasMeasured(w: World, n: Input)
    ensures var out := RunFrom(w, n, 0, FRESH).0.out;
            && (forall f :: f in out.findings ==> exists j, held :: Measured(w, n, j, held) && FindingFrom(n, j, held, f))
            && (forall text :: text in out.passed ==> exists j, held :: Measured(w, n, j, held) && PassFrom(n, j, held, text))
  {
    hide VerdictAt, FindingFrom, PassFrom, Measured, RunFrom, StateAt;
    var out := RunFrom(w, n, 0, FRESH).0.out;
    StartState(w, n);
    var k := RunReaches(w, n, 0);
    OutputIsGrounded(w, n, k);
    forall f | f in out.findings ensures exists j, held :: Measured(w, n, j, held) && FindingFrom(n, j, held, f) {
      var j, held :| Reached(w, n, k, j, held) && FindingFrom(n, j, held, f);
      VerdictIsMeasured(w, n, j, held);
    }
    forall text | text in out.passed ensures exists j, held :: Measured(w, n, j, held) && PassFrom(n, j, held, text) {
      var j, held :| Reached(w, n, k, j, held) && PassFrom(n, j, held, text);
      VerdictIsMeasured(w, n, j, held);
    }
  }

  lemma StartState(w: World, n: Input)
    ensures StateAt(w, n, 0) == FRESH
  {
  }

  /** Step `j` got this verdict and every slot it reads was bound before it. */
  ghost predicate Measured(w: World, n: Input, j: int, held: bool)
  {
    && 0 <= j < |n.playbook.steps| && VerdictAt(w, n, j, held)
    && forall slot :: slot in Expr.SlotsRead(n.playbook.steps[j].evaluate) && !Expr.IsExprBuiltin(slot)
         ==> BoundBefore(w, n, j, slot)
  }

  lemma VerdictIsMeasured(w: World, n: Input, j: nat, held: bool)
    requires j < |n.playbook.steps| && VerdictAt(w, n, j, held)
    ensures Measured(w, n, j, held)
  {
    EnvIsCollected(w, n, j);
    var st, env := n.playbook.steps[j], StateAt(w, n, j).env;
    forall slot | slot in Expr.SlotsRead(st.evaluate) && !Expr.IsExprBuiltin(slot) ensures BoundBefore(w, n, j, slot) {
      assert slot !in Missing(st.evaluate, env);
    }
  }
}
