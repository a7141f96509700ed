/** The whole report of a playbook run, told from what was bound before each step and not from how a step works. */
module PlaybookOutput {
  import opened Basics
  import opened GoStrings
  import opened Packs
  import opened Engine
  import opened PlaybookRuns
  import Expr

  // --- what a step meets -----------------------------------------------------------------------

  /** The expression names the slot. */
  ghost predicate Reads(expression: string, slot: string)
  {
    slot in Expr.SlotsRead(expression) && !Expr.IsExprBuiltin(slot)
  }

  /** Every slot the expression names was bound by a collect before step `j`. */
  ghost predicate Ready(w: World, n: Input, j: nat, expression: string)
    requires j <= |n.playbook.steps|
  {
    forall slot :: Reads(expression, slot) ==> BoundBefore(w, n, j, slot)
  }

  /** The slot holds a metric that came back without a series. */
  ghost predicate Silent(env: Env, slot: string)
  {
    slot in env && env[slot].MetricView? && env[slot].empty
  }

  ghost predicate Evaluates(n: Input, j: nat)
    requires j < |n.playbook.steps|
  {
    n.playbook.steps[j].collect.None? && n.playbook.steps[j].evaluate != ""
  }

  ghost predicate Concludes(n: Input, j: nat)
    requires j < |n.playbook.steps|
  {
    n.playbook.steps[j].collect.None? && n.playbook.steps[j].evaluate == "" && n.playbook.steps[j].conclude.Some?
  }

  /** What the expression language says of an expression at step `j`. */
  ghost function Says(w: World, n: Input, j: nat, expression: string): (r: EvalResult)
    requires j <= |n.playbook.steps|
  {
    w.evaluate(expression, StateAt(w, n, j).env)
  }

  /** The check of step `j` came out, and a "no" was measured and not just empty. */
  ghost predicate Verdict(w: World, n: Input, j: nat, held: bool)
    requires j < |n.playbook.steps|
  {
    var expression := n.playbook.steps[j].evaluate;
    && Evaluates(n, j) && Ready(w, n, j, expression) && Says(w, n, j, expression) == Value(held)
    && (held || forall slot :: Reads(expression, slot) ==> !Silent(StateAt(w, n, j).env, slot))
  }

  /** The mode of step `j` is to be concluded: unconditionally, or because its condition holds of what was bound. */
  ghost predicate Wants(w: World, n: Input, j: nat)
    requires j < |n.playbook.steps|
  {
    Concludes(n, j) &&
    var condition := n.playbook.steps[j].conclude.value.condition;
    condition == "" || (Ready(w, n, j, condition) && Says(w, n, j, condition) == Value(true))
  }

  // --- what a step gives -------------------------------------------------------------------------

  /** What a branch reports, if it is the one that is taken. */
  ghost function Reported(b: Option<Branch>, st: Step, lang: string): (out: Output)
  {
    if b.None? then NONE
    else
      var text := b.value.pass.In(lang);
      NONE.(
        findings :=
          match b.value.finding
          case None => []
          case Some(f) =>
            [Finding(st.id, if Blank(f.severity) then "major" else f.severity, f.confidence, f.statement.In(lang))],
        passed := if text == "" then [] else [text])
  }

  const NONE := Output([], 0, [], [], [], false)

  /** What a check that did not come out leaves: the slots that were not there, or those that said nothing. */
  ghost function Unmeasured(w: World, n: Input, j: nat): (gaps: seq<RunGap>)
    requires j < |n.playbook.steps|
  {
    var st := n.playbook.steps[j];
    if !Ready(w, n, j, st.evaluate) then
      [NoData(st.id, set slot | slot in Expr.SlotsRead(st.evaluate) && Reads(st.evaluate, slot)
                              && !BoundBefore(w, n, j, slot))]
    else if Says(w, n, j, st.evaluate) == Value(false) then
      var env := StateAt(w, n, j).env;
      [NoData(st.id, set slot | slot in Expr.SlotsRead(st.evaluate) && Reads(st.evaluate, slot) && Silent(env, slot))]
    else []
  }

  ghost function Collected(w: World, n: Input, j: nat): (out: Output)
    requires j < |n.playbook.steps| && n.playbook.steps[j].collect.Some?
  {
    var st := n.playbook.steps[j];
    var c := st.collect.value;
    match ExpandedArgs(c.args, n.pack.signals, n.selector)
    case Err(code) => NONE.(gaps := [Unprepared(st.id, code)])
    case Ok(args) =>
      match w.invoke(j, c.tool, args)
      case Err(code) => NONE.(gaps := [NotCollected(st.id, code)])
      case Ok(_) => NONE.(evidence := 1)
  }

  /** All that step `j` adds to the report. */
  ghost function Given(w: World, n: Input, j: nat): (out: Output)
    requires j < |n.playbook.steps|
  {
    var st := n.playbook.steps[j];
    if st.collect.Some? then Collected(w, n, j)
    else if Evaluates(n, j) then
      if Verdict(w, n, j, true) then Reported(st.onTrue, st, n.language)
      else if Verdict(w, n, j, false) then Reported(st.onFalse, st, n.language)
      else NONE.(gaps := Unmeasured(w, n, j))
    else if Wants(w, n, j) && Known(n, j) then NONE.(conclusions := [st.conclude.value.failureMode])
    else NONE
  }

  /** The pack has the mode that step `j` concludes. */
  ghost predicate Known(n: Input, j: nat)
    requires j < |n.playbook.steps| && n.playbook.steps[j].conclude.Some?
  {
    exists f :: f in n.pack.failureModes && f.id == n.playbook.steps[j].conclude.value.failureMode
  }

  function Joined(a: Output, b: Output): (out: Output)
  {
    Output(a.findings + b.findings, a.evidence + b.evidence, a.gaps + b.gaps, a.passed + b.passed,
           a.conclusions + b.conclusions, a.truncated || b.truncated)
  }

  /** All that the first `k` steps add, in their order. */
  ghost function GivenUpTo(w: World, n: Input, k: nat): (out: Output)
    requires k <= |n.playbook.steps|
  {
    if k == 0 then NONE else Joined(GivenUpTo(w, n, k - 1), Given(w, n, k - 1))
  }

  // --- how a step ends a run -----------------------------------------------------------------------

  ghost predicate StopsAt(w: World, n: Input, j: nat)
    requires j < |n.playbook.steps|
  {
    var st := n.playbook.steps[j];
    || (Verdict(w, n, j, true) && st.onTrue.Some? && st.onTrue.value.stop)
    || (Verdict(w, n, j, false) && st.onFalse.Some? && st.onFalse.value.stop)
  }

  /** The failures: an expression that does not compile or run, a check that is no yes or no, an unknown mode. */
  ghost predicate FailsAt(w: World, n: Input, j: nat, code: string)
    requires j < |n.playbook.steps|
  {
    var st := n.playbook.steps[j];
    || (Evaluates(n, j) && Ready(w, n, j, st.evaluate) && Broken(Says(w, n, j, st.evaluate), code))
    || (Evaluates(n, j) && Ready(w, n, j, st.evaluate) && Says(w, n, j, st.evaluate) == NotBool && code == "MAS-5011")
    || (Concludes(n, j) && st.conclude.value.condition != "" && Ready(w, n, j, st.conclude.value.condition)
        && Broken(Says(w, n, j, st.conclude.value.condition), code))
    || (Wants(w, n, j) && !Known(n, j) && code == "MAS-5014")
  }

  ghost predicate Fails(w: World, n: Input, j: nat)
    requires j < |n.playbook.steps|
  {
    exists code :: FailsAt(w, n, j, code)
  }

  ghost predicate Broken(r: EvalResult, code: string)
  {
    (r == CompileError && code == "MAS-5010") || (r == RunError && code == "MAS-5011")
  }

  // --- what a slot holds ------------------------------------------------------------------------------

  /** Step `j` bound the slot to this, and no step before `k` has bound it since. */
  ghost predicate LatestBinding(w: World, n: Input, k: nat, slot: string, j: int, view: View)
    requires k <= |n.playbook.steps|
  {
    && 0 <= j < k && BoundAt(w, n, j, slot)
    && (var c := n.playbook.steps[j].collect.value;
        w.invoke(j, c.tool, ExpandedArgs(c.args, n.pack.signals, n.selector).value) == Ok(view))
    && forall i :: j < i < k ==> !BoundAt(w, n, i, slot)
  }

  lemma LatestStays(w: World, n: Input, k: nat, slot: string, j: int, view: View)
    requires k < |n.playbook.steps| && LatestBinding(w, n, k, slot, j, view) && !BoundAt(w, n, k, slot)
    ensures LatestBinding(w, n, k + 1, slot, j, view)
  {
    hide ExpandedArgs;
  }

  /** A slot holds what the latest collect to bind it got from its tool. */
  lemma {:induction false} SlotHoldsTheLatest(w: World, n: Input, k: nat, slot: string)
    requires k <= |n.playbook.steps| && slot in StateAt(w, n, k).env
    ensures exists j :: LatestBinding(w, n, k, slot, j, StateAt(w, n, k).env[slot])
  {
    hide LatestBinding, BoundAt, AfterStep;
    if k > 0 {
      BindingStep(w, n, k - 1, slot);
      hide StateAt;
      if !BoundAt(w, n, k - 1, slot) {
        SlotHoldsTheLatest(w, n, k - 1, slot);
        var j :| LatestBinding(w, n, k - 1, slot, j, StateAt(w, n, k - 1).env[slot]);
        LatestStays(w, n, k - 1, slot, j, StateAt(w, n, k - 1).env[slot]);
      }
    }
  }

  lemma BindingStep(w: World, n: Input, k: nat, slot: string)
    requires k < |n.playbook.steps| && slot in StateAt(w, n, k + 1).env
    ensures BoundAt(w, n, k, slot) ==> LatestBinding(w, n, k + 1, slot, k, StateAt(w, n, k + 1).env[slot])
    ensures !BoundAt(w, n, k, slot) ==>
              slot in StateAt(w, n, k).env && StateAt(w, n, k).env[slot] == StateAt(w, n, k + 1).env[slot]
  {
    hide ExpandedArgs, Missing, EmptyMetrics, Judgement;
    StepBinds(w, n, k, slot);
    assert StateAt(w, n, k + 1) == AfterStep(w, n, k, n.playbook.steps[k], StateAt(w, n, k)).0;
    StepKeepsEnv(w, n, k);
    hide StateAt;
  }

  lemma StepKeepsEnv(w: World, n: Input, k: nat)
    requires k < |n.playbook.steps|
    ensures n.playbook.steps[k].collect.None? ==>
              AfterStep(w, n, k, n.playbook.steps[k], StateAt(w, n, k)).0.env == StateAt(w, n, k).env
  {
    hide StateAt, Missing, EmptyMetrics, ExpandedArgs;
  }

  // --- the interpreter does just this -------------------------------------------------------------------

  lemma MissingMeaning(w: World, n: Input, j: nat, expression: string)
    requires j <= |n.playbook.steps|
    ensures var env := StateAt(w, n, j).env;
            && (Missing(expression, env) == {} <==> Ready(w, n, j, expression))
            && Missing(expression, env)
               == (set slot | slot in Expr.SlotsRead(expression) && Reads(expression, slot) && !BoundBefore(w, n, j, slot))
  {
    hide Expr.SlotsRead, Expr.IsExprBuiltin, StateAt, BoundBefore;
    EnvIsCollected(w, n, j);
    forall slot ensures slot in Missing(expression, StateAt(w, n, j).env) <==> Reads(expression, slot) && !BoundBefore(w, n, j, slot) {
    }
  }

  lemma EmptyMeaning(expression: string, env: Env)
    ensures EmptyMetrics(expression, env) == {} <==> forall slot :: Reads(expression, slot) ==> !Silent(env, slot)
    ensures EmptyMetrics(expression, env)
         == set slot | slot in Expr.SlotsRead(expression) && Reads(expression, slot) && Silent(env, slot)
  {
    hide Expr.SlotsRead, Expr.IsExprBuiltin;
    forall slot ensures slot in EmptyMetrics(expression, env) <==> Reads(expression, slot) && Silent(env, slot) {
    }
  }

  lemma JudgementGives(b: Option<Branch>, st: Step, lang: string, s: State)
    ensures Judgement(b, st, lang, s).0 == s.(out := Joined(s.out, Reported(b, st, lang)))
    ensures Judgement(b, st, lang, s).1 == if b.Some? && b.value.stop then Stop else Continue
  {
    assert forall x: seq<Finding> :: x + [] == x;
    assert forall x: seq<RunGap> :: x + [] == x;
    assert forall x: seq<string> :: x + [] == x;
  }

  lemma EvaluateGives(w: World, n: Input, j: nat)
    requires j < |n.playbook.steps| && Evaluates(n, j)
    ensures var (s', signal) := AfterEvaluate(w, n, n.playbook.steps[j], StateAt(w, n, j));
            && s'.out == Joined(StateAt(w, n, j).out, Given(w, n, j))
            && (signal == Stop <==> StopsAt(w, n, j))
            && forall code :: signal == Fail(code) <==> FailsAt(w, n, j, code)
  {
    hide StateAt, Missing, EmptyMetrics, Judgement, Reads, Silent, Reported, BoundBefore;
    var st, s := n.playbook.steps[j], StateAt(w, n, j);
    MissingMeaning(w, n, j, st.evaluate);
    EmptyMeaning(st.evaluate, s.env);
    JudgementGives(st.onTrue, st, n.language, s);
    JudgementGives(st.onFalse, st, n.language, s);
    NothingJoined(s.out);
  }

  lemma NothingJoined(a: Output)
    ensures Joined(a, NONE) == a
    ensures forall g: seq<RunGap> :: Joined(a, NONE.(gaps := g)) == a.(gaps := a.gaps + g)
  {
    assert a.findings + [] == a.findings && a.gaps + [] == a.gaps && a.passed + [] == a.passed;
    assert a.conclusions + [] == a.conclusions;
  }

  lemma ConcludeGives(w: World, n: Input, j: nat)
    requires j < |n.playbook.steps| && Concludes(n, j)
    ensures var (s', signal) := AfterConclude(w, n, n.playbook.steps[j], StateAt(w, n, j));
            && s'.out == Joined(StateAt(w, n, j).out, Given(w, n, j))
            && signal != Stop && !StopsAt(w, n, j)
            && forall code :: signal == Fail(code) <==> FailsAt(w, n, j, code)
  {
    hide StateAt, Missing, Reads, BoundBefore, Reported;
    var st, s := n.playbook.steps[j], StateAt(w, n, j);
    MissingMeaning(w, n, j, st.conclude.value.condition);
    NothingJoined(s.out);
    assert s.out.findings + [] == s.out.findings && s.out.gaps + [] == s.out.gaps && s.out.passed + [] == s.out.passed;
  }

  lemma CollectGives(w: World, n: Input, j: nat)
    requires j < |n.playbook.steps| && n.playbook.steps[j].collect.Some?
    ensures AfterCollect(w, n, j, n.playbook.steps[j], StateAt(w, n, j)).out
         == Joined(StateAt(w, n, j).out, Given(w, n, j))
    ensures !StopsAt(w, n, j) && forall code :: !FailsAt(w, n, j, code)
  {
    hide StateAt, ExpandedArgs;
    var s := StateAt(w, n, j);
    NothingJoined(s.out);
    assert s.out.findings + [] == s.out.findings && s.out.gaps + [] == s.out.gaps && s.out.passed + [] == s.out.passed;
    assert s.out.conclusions + [] == s.out.conclusions;
  }

  lemma StepGives(w: World, n: Input, j: nat)
    requires j < |n.playbook.steps|
    ensures var (s', signal) := AfterStep(w, n, j, n.playbook.steps[j], StateAt(w, n, j));
            && s'.out == Joined(StateAt(w, n, j).out, Given(w, n, j))
            && (signal == Stop <==> StopsAt(w, n, j))
            && forall code :: signal == Fail(code) <==> FailsAt(w, n, j, code)
  {
    hide StateAt, AfterCollect, AfterEvaluate, AfterConclude, Joined;
    var st := n.playbook.steps[j];
    if st.collect.Some? {
      CollectGives(w, n, j);
    } else if st.evaluate != "" {
      EvaluateGives(w, n, j);
    } else if st.conclude.Some? {
      ConcludeGives(w, n, j);
    } else {
      NothingJoined(StateAt(w, n, j).out);
    }
  }

  lemma {:induction false} StateIsGiven(w: World, n: Input, k: nat)
    requires k <= |n.playbook.steps|
    ensures StateAt(w, n, k).out == GivenUpTo(w, n, k)
  {
    hide AfterStep, Given, Joined;
    if k > 0 {
      StateIsGiven(w, n, k - 1);
      StepGives(w, n, k - 1);
    }
  }

  /** The run got past its first `k` steps: none of them ended it. */
  ghost predicate Undisturbed(w: World, n: Input, k: nat)
    requires k <= |n.playbook.steps|
  {
    forall j :: 0 <= j < k ==> !StopsAt(w, n, j) && !Fails(w, n, j)
  }

  /** The run has taken `k` steps and ended for the one reason there is. */
  ghost predicate EndedAfter(w: World, n: Input, k: nat, s: State, err: Option<string>)
    requires k <= |n.playbook.steps|
  {
    if k > 0 && StopsAt(w, n, k - 1) then
      Undisturbed(w, n, k - 1) && err == None && s.out == GivenUpTo(w, n, k)
    else if k > 0 && Fails(w, n, k - 1) then
      Undisturbed(w, n, k - 1) && err.Some? && FailsAt(w, n, k - 1, err.value) && s.out == GivenUpTo(w, n, k)
    else if k < |n.playbook.steps| then
      && Undisturbed(w, n, k) && err == None && k == (if n.maxSteps > 0 then n.maxSteps else 32)
      && s.out == Joined(GivenUpTo(w, n, k), NONE.(gaps := [Truncated(k)], truncated := true))
    else
      Undisturbed(w, n, k) && err == None && s.out == GivenUpTo(w, n, k)
  }

  lemma EndsHere(w: World, n: Input, i: nat)
    requires i <= |n.playbook.steps| && i <= Limit(n) && Undisturbed(w, n, i)
    requires i == |n.playbook.steps| || i == Limit(n)
    ensures var (s, err) := RunFrom(w, n, i, StateAt(w, n, i)); EndedAfter(w, n, i, s, err)
  {
    hide AfterStep, StopsAt, Fails, GivenUpTo, StateAt, FailsAt;
    StateIsGiven(w, n, i);
    CutOffGives(StateAt(w, n, i), Limit(n));
  }

  lemma EndsByStep(w: World, n: Input, i: nat)
    requires i < |n.playbook.steps| && i < Limit(n) && Undisturbed(w, n, i)
    requires AfterStep(w, n, i, n.playbook.steps[i], StateAt(w, n, i)).1 != Continue
    ensures var (s, err) := RunFrom(w, n, i, StateAt(w, n, i)); EndedAfter(w, n, i + 1, s, err)
  {
    hide AfterStep, StopsAt, FailsAt, GivenUpTo, Limit, Undisturbed;
    StepGives(w, n, i);
    StateIsGiven(w, n, i + 1);
    var (s', signal) := AfterStep(w, n, i, n.playbook.steps[i], StateAt(w, n, i));
    assert StateAt(w, n, i + 1) == s';
    hide StateAt;
    if signal.Fail? {
      assert FailsAt(w, n, i, signal.code);
    }
  }

  /**
   * The whole meaning of a run: it takes steps up to the first that stops or fails it, the step budget or the
   * last one, and reports exactly what those steps give, in their order.
   */
  lemma {:induction false} RunMeans(w: World, n: Input, i: nat) returns (k: nat)
    requires i <= |n.playbook.steps| && i <= Limit(n) && Undisturbed(w, n, i)
    ensures i <= k <= |n.playbook.steps| && k <= Limit(n)
    ensures var (s, err) := RunFrom(w, n, i, StateAt(w, n, i)); EndedAfter(w, n, k, s, err)
    decreases |n.playbook.steps| - i
  {
    hide AfterStep, StopsAt, FailsAt, EndedAfter, Limit;
    if i == |n.playbook.steps| || i == Limit(n) {
      k := i;
      EndsHere(w, n, i);
    } else {
      StepGives(w, n, i);
      if AfterStep(w, n, i, n.playbook.steps[i], StateAt(w, n, i)).1 == Continue {
        assert StateAt(w, n, i + 1) == AfterStep(w, n, i, n.playbook.steps[i], StateAt(w, n, i)).0;
        k := RunMeans(w, n, i + 1);
      } else {
        k := i + 1;
        EndsByStep(w, n, i);
      }
    }
  }

  /** The same of the whole run. */
  lemma WholeRunMeans(w: World, n: Input) returns (k: nat)
    ensures k <= |n.playbook.steps| && k <= Limit(n)
    ensures var (s, err) := RunFrom(w, n, 0, FRESH); EndedAfter(w, n, k, s, err)
  {
    hide EndedAfter, StopsAt, Fails;
    StartState(w, n);
    hide StateAt;
    k := RunMeans(w, n, 0);
  }

  lemma CutOffGives(s: State, limit: nat)
    ensures CutOff(s, limit).out == Joined(s.out, NONE.(gaps := [Truncated(limit)], truncated := true))
  {
    assert s.out.findings + [] == s.out.findings && s.out.passed + [] == s.out.passed;
    assert s.out.conclusions + [] == s.out.conclusions;
  }

  /** Step `j` concludes the mode: it wants to, and the pack has it. */
  ghost predicate Delivers(w: World, n: Input, j: nat, mode: string)
    requires j < |n.playbook.steps|
  {
    Wants(w, n, j) && Known(n, j) && mode == n.playbook.steps[j].conclude.value.failureMode
  }

  lemma {:induction false} ConclusionsAreWanted(w: World, n: Input, k: nat, mode: string)
    requires k <= |n.playbook.steps|
    ensures mode in GivenUpTo(w, n, k).conclusions <==> exists j :: 0 <= j < k && Delivers(w, n, j, mode)
  {
    hide Delivers, Given;
    if k > 0 {
      ConclusionsAreWanted(w, n, k - 1, mode);
      GivenConclusions(w, n, k - 1, mode);
    }
  }

  /** So a run concludes exactly the modes of the steps it took that wanted theirs concluded and named a known one. */
  lemma RunConcludes(w: World, n: Input) returns (k: nat)
    ensures k <= |n.playbook.steps|
    ensures var (s, err) := RunFrom(w, n, 0, FRESH);
            && EndedAfter(w, n, k, s, err)
            && forall mode :: mode in s.out.conclusions <==> exists j :: 0 <= j < k && Delivers(w, n, j, mode)
  {
    hide Delivers, StopsAt, Fails, Undisturbed, GivenUpTo, RunFrom, FailsAt;
    k := WholeRunMeans(w, n);
    var s := RunFrom(w, n, 0, FRESH).0;
    assert s.out.conclusions == GivenUpTo(w, n, k).conclusions;
    forall mode ensures mode in s.out.conclusions <==> exists j :: 0 <= j < k && Delivers(w, n, j, mode) {
      ConclusionsAreWanted(w, n, k, mode);
    }
  }

  lemma GivenConclusions(w: World, n: Input, j: nat, mode: string)
    requires j < |n.playbook.steps|
    ensures mode in Given(w, n, j).conclusions <==> Delivers(w, n, j, mode)
  {
    hide StateAt, BoundBefore, Ready, Says;
  }
}
