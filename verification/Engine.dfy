/** The playbook interpreter: what one playbook produces, whatever its tools and expressions answer. */
module Engine {
  import opened Basics
  import opened GoStrings
  import opened Packs
  import Expr

  // --- the parts it cannot see into ---------------------------------------------------

  datatype View = MetricView(empty: bool, tag: int) | OtherView(tag: int)

  type Env = map<string, View>

  datatype EvalResult = CompileError | RunError | NotBool | Value(held: bool)

  /** Tools and the expression language, as arbitrary functions of what they are given. */
  datatype World = World(
    invoke: (nat, string, map<string, Arg>) -> Result<View>,
    evaluate: (string, Env) -> EvalResult)

  // --- what a run produces --------------------------------------------------------------

  datatype RunGap =
    | Unprepared(step: string, code: string)     // the arguments could not be expanded
    | NotCollected(step: string, code: string)   // the tool gave a gap instead of evidence
    | NoData(step: string, slots: set<string>)   // MAS-5015
    | Truncated(limit: nat)                      // MAS-5013

  datatype Finding = Finding(origin: string, severity: string, confidence: real, statement: string)

  datatype Output = Output(
    findings: seq<Finding>, evidence: nat, gaps: seq<RunGap>, passed: seq<string>, conclusions: seq<string>,
    truncated: bool)

  datatype State = State(env: Env, out: Output)

  /** How a step ends: go on, stop the playbook, or fail it with a code. */
  datatype Control = Continue | Stop | Fail(code: string)

  const FRESH := State(map[], Output([], 0, [], [], [], false))

  datatype Input = Input(pack: Pack, playbook: Playbook, selector: string, language: string, maxSteps: int)

  function AddGap(s: State, g: RunGap): (s': State)
  {
    s.(out := s.out.(gaps := s.out.gaps + [g]))
  }

  // --- one step --------------------------------------------------------------------------

  /** missingReferences: the slots an expression reads that no collect has bound. */
  function Missing(expression: string, env: Env): (r: set<string>)
  {
    set id | id in Expr.SlotsRead(expression) && !Expr.IsExprBuiltin(id) && id !in env
  }

  /** emptyMetricSlots: the metric slots an expression reads that collected no series. */
  function EmptyMetrics(expression: string, env: Env): (r: set<string>)
  {
    set id | id in Expr.SlotsRead(expression) && !Expr.IsExprBuiltin(id) && id in env && env[id].MetricView? && env[id].empty
  }

  function AfterCollect(w: World, n: Input, i: nat, st: Step, s: State): (s': State)
    requires st.collect.Some?
  {
    var c := st.collect.value;
    match ExpandedArgs(c.args, n.pack.signals, n.selector)
    case Err(code) => AddGap(s, Unprepared(st.id, code))
    case Ok(args) =>
      match w.invoke(i, c.tool, args)
      case Err(code) => AddGap(s, NotCollected(st.id, code))
      case Ok(view) => State(s.env[c.slot := view], s.out.(evidence := s.out.evidence + 1))
  }

  function Judgement(b: Option<Branch>, st: Step, lang: string, s: State): (r: (State, Control))
  {
    match b
    case None => (s, Continue)
    case Some(branch) =>
      var found :=
        if branch.finding.None? then s.out.findings
        else
          var f := branch.finding.value;
          s.out.findings + [Finding(st.id, OrDefault(f.severity, "major"), f.confidence, f.statement.In(lang))];
      var text := branch.pass.In(lang);
      var passed := if text == "" then s.out.passed else s.out.passed + [text];
      (s.(out := s.out.(findings := found, passed := passed)), if branch.stop then Stop else Continue)
  }

  function OrDefault(v: string, def: string): (s: string)
  {
    if Blank(v) then def else v
  }

  function AfterEvaluate(w: World, n: Input, st: Step, s: State): (r: (State, Control))
  {
    var missing := Missing(st.evaluate, s.env);
    if missing != {} then (AddGap(s, NoData(st.id, missing)), Continue)
    else
      match w.evaluate(st.evaluate, s.env)
      case CompileError => (s, Fail("MAS-5010"))
      case RunError => (s, Fail("MAS-5011"))
      case NotBool => (s, Fail("MAS-5011"))
      case Value(held) =>
        var unmeasured := EmptyMetrics(st.evaluate, s.env);
        if !held && unmeasured != {} then (AddGap(s, NoData(st.id, unmeasured)), Continue)
        else Judgement(if held then st.onTrue else st.onFalse, st, n.language, s)
  }

  predicate HasMode(pack: Pack, id: string)
  {
    exists f :: f in pack.failureModes && f.id == id
  }

  function AfterConclude(w: World, n: Input, st: Step, s: State): (r: (State, Control))
    requires st.conclude.Some?
  {
    var c := st.conclude.value;
    var concluded :=
      if !HasMode(n.pack, c.failureMode) then (s, Fail("MAS-5014"))
      else (s.(out := s.out.(conclusions := s.out.conclusions + [c.failureMode])), Continue);
    if c.condition == "" then concluded
    else if Missing(c.condition, s.env) != {} then (s, Continue)
    else
      match w.evaluate(c.condition, s.env)
      case CompileError => (s, Fail("MAS-5010"))
      case RunError => (s, Fail("MAS-5011"))
      case NotBool => (s, Continue)
      case Value(held) => if held then concluded else (s, Continue)
  }

  function AfterStep(w: World, n: Input, i: nat, st: Step, s: State): (r: (State, Control))
  {
    if st.collect.Some? then (AfterCollect(w, n, i, st, s), Continue)
    else if st.evaluate != "" then AfterEvaluate(w, n, st, s)
    else if st.conclude.Some? then AfterConclude(w, n, st, s)
    else (s, Continue)
  }

  function Limit(n: Input): (r: nat)
  {
    if n.maxSteps <= 0 then 32 else n.maxSteps
  }

  function CutOff(s: State, limit: nat): (s': State)
  {
    s.(out := s.out.(gaps := s.out.gaps + [Truncated(limit)], truncated := true))
  }

  /** The rest of a playbook from step `i` on: what it produced and the error it failed with, if any. */
  function RunFrom(w: World, n: Input, i: nat, s: State): (r: (State, Option<string>))
    decreases |n.playbook.steps| - i
  {
    if i >= |n.playbook.steps| then (s, None)
    else if i >= Limit(n) then (CutOff(s, Limit(n)), None)
    else
      var (s', signal) := AfterStep(w, n, i, n.playbook.steps[i], s);
      match signal
      case Continue => RunFrom(w, n, i + 1, s')
      case Stop => (s', None)
      case Fail(code) => (s', Some(code))
  }

  // --- the interpreter, in place ------------------------------------------------------------

  class Execution {
    var env: Env
    var out: Output

    constructor ()
      ensures View() == FRESH
    {
      env, out := FRESH.env, FRESH.out;
    }

    function View(): (s': State)
      reads this
    {
      State(env, out)
    }

    method Report(g: RunGap)
      modifies this
      ensures View() == AddGap(old(View()), g)
    {
      out := out.(gaps := out.gaps + [g]);
    }

    /** runCollect. */
    method RunCollect(w: World, n: Input, i: nat, st: Step)
      requires st.collect.Some?
      modifies this
      ensures View() == AfterCollect(w, n, i, st, old(View()))
    {
      var c := st.collect.value;
      var args := ExpandSignals(c.args, n.pack.signals, n.selector);
      if args.Err? {
        Report(Unprepared(st.id, args.code));
        return;
      }
      var reply := w.invoke(i, c.tool, args.value);
      if reply.Err? {
        Report(NotCollected(st.id, reply.code));
        return;
      }
      out := out.(evidence := out.evidence + 1);
      env := env[c.slot := reply.value];
    }

    /** runEvaluate. */
    method RunEvaluate(w: World, n: Input, st: Step) returns (signal: Control)
      modifies this
      ensures (View(), signal) == AfterEvaluate(w, n, st, old(View()))
    {
      var missing := Missing(st.evaluate, env);
      if missing != {} {
        Report(NoData(st.id, missing));
        return Continue;
      }
      match w.evaluate(st.evaluate, env) {
        case CompileError => return Fail("MAS-5010");
        case RunError => return Fail("MAS-5011");
        case NotBool => return Fail("MAS-5011");
        case Value(held) =>
          var branch := if held then st.onTrue else st.onFalse;
          if !held {
            var unmeasured := EmptyMetrics(st.evaluate, env);
            if unmeasured != {} {
              Report(NoData(st.id, unmeasured));
              return Continue;
            }
          }
          if branch.None? {
            return Continue;
          }
          if branch.value.finding.Some? {
            var f := branch.value.finding.value;
            out := out.(findings := out.findings
                          + [Finding(st.id, OrDefault(f.severity, "major"), f.confidence, f.statement.In(n.language))]);
          }
          var text := branch.value.pass.In(n.language);
          if text != "" {
            out := out.(passed := out.passed + [text]);
          }
          return if branch.value.stop then Stop else Continue;
      }
    }

    /** runConclude. */
    method RunConclude(w: World, n: Input, st: Step) returns (signal: Control)
      requires st.conclude.Some?
      modifies this
      ensures (View(), signal) == AfterConclude(w, n, st, old(View()))
    {
      var c := st.conclude.value;
      if c.condition != "" {
        if Missing(c.condition, env) != {} {
          return Continue;
        }
        match w.evaluate(c.condition, env) {
          case CompileError => return Fail("MAS-5010");
          case RunError => return Fail("MAS-5011");
          case NotBool => return Continue;
          case Value(held) =>
            if !held {
              return Continue;
            }
        }
      }
      if !HasMode(n.pack, c.failureMode) {
        return Fail("MAS-5014");
      }
      out := out.(conclusions := out.conclusions + [c.failureMode]);
      return Continue;
    }
  }

  /** Engine.Run. */
  method Run(w: World, n: Input) returns (out: Output, err: Option<string>)
    ensures (out, err) == var r := RunFrom(w, n, 0, FRESH); (r.0.out, r.1)
  {
    var x := new Execution();
    var maxSteps := n.maxSteps;
    if maxSteps <= 0 {
      maxSteps := 32;
    }
    var steps := n.playbook.steps;
    for i := 0 to |steps|
      invariant fresh(x)
      invariant RunFrom(w, n, i, x.View()) == RunFrom(w, n, 0, FRESH)
    {
      var st := steps[i];
      if i >= maxSteps {
        x.Report(Truncated(maxSteps));
        x.out := x.out.(truncated := true);
        return x.out, None;
      }
      if st.collect.Some? {
        x.RunCollect(w, n, i, st);
      } else if st.evaluate != "" {
        var signal := x.RunEvaluate(w, n, st);
        match signal {
          case Continue =>
          case Stop => return x.out, None;
          case Fail(code) => return x.out, Some(code);
        }
      } else if st.conclude.Some? {
        var signal := x.RunConclude(w, n, st);
        match signal {
          case Continue =>
          case Stop => return x.out, None;
          case Fail(code) => return x.out, Some(code);
        }
      }
    }
    return x.out, None;
  }
}
