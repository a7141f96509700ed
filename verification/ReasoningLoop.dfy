/** The reasoning loop as the program runs it, against the step-by-step investigators of module Investigators. */
module ReasoningLoop {
  import opened GoStrings
  import opened Notes
  import opened Workspace
  import opened Investigators

  /**
   * What a loop meets: whether the clock has run out at a turn, the model's reply at a turn, and the result
   * of a tool call, by turn and by how many calls of that turn are still to be made.
   */
  datatype World = World(late: nat -> bool, reply: nat -> Reply, tool: (nat, nat) -> ToolResult)

  // --- the loop as a sequence of steps -------------------------------------------------------------

  predicate InLoop(pc: PC)
  {
    match pc
    case Asking(_) => true
    case Awaiting(_) => true
    case Judging(_, _) => true
    case Using(_, _, _) => true
    case Passed(_, todo, _) => todo != []
    case Running(_, todo, _) => todo != []
    case Owing(_, _) => true
    case Noting(_) => true
    case _ => false
  }

  function Given(w: World, pc: PC): (input: Input)
    requires InLoop(pc)
    ensures Fits(pc, input)
  {
    match pc
    case Asking(t) => Clock(w.late(t.number))
    case Awaiting(t) => Answer(w.reply(t.number))
    case Running(t, todo, _) => Result(w.tool(t.number, |todo|))
    case _ => Tick
  }

  function Rank(pc: PC): (n: nat)
  {
    match pc
    case Asking(t) => 4 * (MAX_TURNS - t.number) + 2
    case Awaiting(t) => 4 * (MAX_TURNS - t.number) + 1
    case Judging(t, _) => 4 * (MAX_TURNS - t.number)
    case Using(t, _, _) => 4 * (MAX_TURNS - t.number) - 1
    case Passed(t, _, _) => 4 * (MAX_TURNS - t.number) - 1
    case Running(t, _, _) => 4 * (MAX_TURNS - t.number) - 1
    case Owing(_, ToTools(t, _, _)) => 4 * (MAX_TURNS - t.number) - 1
    case Owing(_, ToNote(_)) => 1
    case _ => 0
  }

  function CallsLeft(pc: PC): (n: nat)
  {
    match pc
    case Using(_, todo, _) => 4 * |todo| + 2
    case Passed(_, todo, _) => 4 * |todo| + 1
    case Running(_, todo, _) => 4 * |todo|
    case Owing(_, ToTools(_, todo, _)) => 4 * |todo| + 3
    case _ => 0
  }

  /** One investigator alone, up to the note it is about to write: the state it leaves and its last text. */
  function Drive(c: Setup, s: Shared, d: Domain, pc: PC, w: World): (r: (Shared, string))
    requires InLoop(pc)
    decreases Rank(pc), CallsLeft(pc)
  {
    if pc.Noting? then (s, pc.text)
    else
      var r := Advance(c, s, d, pc, Given(w, pc));
      Drive(c, r.0, d, r.1, w)
  }

  lemma DriveUnfolds(c: Setup, s: Shared, d: Domain, pc: PC, w: World)
    requires InLoop(pc) && !pc.Noting?
    ensures var r := Advance(c, s, d, pc, Given(w, pc));
            InLoop(r.1) && Drive(c, s, d, pc, w) == Drive(c, r.0, d, r.1, w)
  {
  }

  /** What Invoke does to the shared state, and what it hands back. */
  function Invoked(c: Setup, s: Shared, name: string, result: ToolResult): (r: (Shared, ToolResult))
  {
    if name !in c.registry then (s, Refused("MAS-8006"))
    else if c.budget.maxToolCalls > 0 && s.calls >= c.budget.maxToolCalls then (s, Refused("MAS-3007"))
    else (s.(calls := s.calls + 1), result)
  }

  /** What the loop does with the result of one call: evidence, or a gap. */
  function Taken(s: Shared, t: Turn, rest: seq<string>, usable: bool, result: ToolResult): (next: (Shared, PC))
  {
    match result
    case Data(e) => (s.(evidence := WithEvidence(s.evidence, e)), Using(t, rest, true))
    case Refused(code) => (s.WithGap(code), Using(t.(repairs := Repaired(t.repairs, code)), rest, usable))
  }

  /** Check, count, result and gap together are one call of Invoke and what follows it. */
  lemma CallUnfolds(c: Setup, s: Shared, d: Domain, t: Turn, todo: seq<string>, usable: bool, w: World)
    requires todo != []
    ensures var (s', result) := Invoked(c, s, todo[0], w.tool(t.number, |todo|));
            var r := Taken(s', t, todo[1..], usable, result);
            Drive(c, s, d, Using(t, todo, usable), w) == Drive(c, r.0, d, r.1, w)
  {
    hide Drive, WithEvidence;
    DriveUnfolds(c, s, d, Using(t, todo, usable), w);
    var next := Used(c, s, t, todo, usable);
    if next.Owing? {
      DriveUnfolds(c, s, d, next, w);
    } else {
      var counted := s.(calls := s.calls + 1);
      var result := w.tool(t.number, |todo|);
      DriveUnfolds(c, s, d, next, w);
      DriveUnfolds(c, counted, d, Running(t, todo, usable), w);
      if result.Refused? {
        DriveUnfolds(c, counted, d, Returned(counted, t, todo, usable, result).1, w);
      }
    }
  }

  /** A gap that ends the loop. */
  lemma GapEnds(c: Setup, s: Shared, d: Domain, code: string, text: string, w: World)
    ensures Drive(c, s, d, Owing(code, ToNote(text)), w) == (s.WithGap(code), text)
  {
    DriveUnfolds(c, s, d, Owing(code, ToNote(text)), w);
  }

  /** What is left to do when a turn is about to begin. */
  function FromTurn(c: Setup, s: Shared, d: Domain, turn: nat, text: string, repairs: nat, w: World): (r: (Shared, string))
  {
    if turn < MAX_TURNS then Drive(c, s, d, Asking(Turn(turn, text, repairs)), w) else (s.WithGap("MAS-3010"), text)
  }

  lemma TurnEnds(c: Setup, s: Shared, d: Domain, t: Turn, usable: bool, w: World)
    ensures Drive(c, s, d, Using(t, [], usable), w)
         == if !usable && t.repairs > MAX_REPAIRS then (s.WithGap("MAS-2004"), t.text)
            else FromTurn(c, s, d, t.number + 1, t.text, t.repairs, w)
  {
    hide Drive;
    DriveUnfolds(c, s, d, Using(t, [], usable), w);
    GapEnds(c, s, d, "MAS-2004", t.text, w);
    GapEnds(c, s, d, "MAS-3010", t.text, w);
  }

  lemma TurnBegins(c: Setup, s: Shared, d: Domain, t: Turn, w: World)
    ensures var late := w.late(t.number);
            var s' := AfterConsume(c.budget, s, late);
            Drive(c, s, d, Asking(t), w) == (
              if Refusal(c.budget, s, late) == Unspent then Drive(c, s', d, Awaiting(t), w)
              else (s'.WithGap("MAS-3005"), t.text))
  {
    hide Refusal, AfterConsume, Drive;
    DriveUnfolds(c, s, d, Asking(t), w);
    GapEnds(c, AfterConsume(c.budget, s, w.late(t.number)), d, "MAS-3005", t.text, w);
  }

  /** A reply leads to its first tool call, or ends the loop. */
  lemma ReplyComes(c: Setup, s: Shared, d: Domain, t: Turn, w: World)
    ensures var r := w.reply(t.number);
            var s' := s.(llmCalls := s.llmCalls + 1, tokens := s.tokens + r.tokens);
            var text := if Blank(r.text) then t.text else r.text;
            Drive(c, s, d, Awaiting(t), w) == (
              if r.failed.Some? then (s'.WithGap(r.failed.value), t.text)
              else if r.refused then (s'.WithGap("MAS-2006"), t.text)
              else if r.calls == [] then (s', text)
              else Drive(c, s', d, Using(t.(text := text), r.calls, false), w))
  {
    hide Blank, Drive;
    var r := w.reply(t.number);
    var s' := s.(llmCalls := s.llmCalls + 1, tokens := s.tokens + r.tokens);
    DriveUnfolds(c, s, d, Awaiting(t), w);
    DriveUnfolds(c, s', d, Judging(t, r), w);
    if r.failed.Some? {
      GapEnds(c, s', d, r.failed.value, t.text, w);
    }
    GapEnds(c, s', d, "MAS-2006", t.text, w);
    DriveStops(c, s', d, if Blank(r.text) then t.text else r.text, w);
  }

  lemma DriveStops(c: Setup, s: Shared, d: Domain, text: string, w: World)
    ensures Drive(c, s, d, Noting(text), w) == (s, text)
  {
  }

  // --- the loop as the program runs it ----------------------------------------------------------------

  class Session {
    var steps: nat
    var llmCalls: nat
    var tokens: nat
    var calls: nat
    var truncated: bool
    var reason: Reason
    var evidence: seq<Evidence>
    var gaps: seq<string>
    var notes: seq<string>

    constructor ()
      ensures View() == Shared(0, 0, 0, 0, false, Unspent, [], [], [])
    {
      steps, llmCalls, tokens, calls := 0, 0, 0, 0;
      truncated, reason := false, Unspent;
      evidence, gaps, notes := [], [], [];
    }

    function View(): (r: Shared)
      reads this
    {
      Shared(steps, llmCalls, tokens, calls, truncated, reason, evidence, gaps, notes)
    }

    /** A refused step flags the run and keeps the first reason; a granted one is counted. */
    method ConsumeStep(b: Budget, late: bool) returns (ok: bool)
      modifies this
      ensures View() == AfterConsume(b, old(View()), late)
      ensures ok <==> Refusal(b, old(View()), late) == Unspent
      ensures ok && b.maxSteps > 0 ==> steps <= b.maxSteps
    {
      if b.timed && late {
        truncated := true;
        if reason == Unspent {
          reason := WallClock;
        }
        return false;
      }
      if b.maxSteps > 0 && steps >= b.maxSteps {
        truncated := true;
        if reason == Unspent {
          reason := StepsSpent;
        }
        return false;
      }
      if b.maxTokens > 0 && tokens >= b.maxTokens {
        truncated := true;
        if reason == Unspent {
          reason := TokensSpent;
        }
        return false;
      }
      steps := steps + 1;
      return true;
    }

    method AddUsage(spent: nat)
      modifies this
      ensures View() == old(View()).(llmCalls := old(llmCalls) + 1, tokens := old(tokens) + spent)
    {
      llmCalls := llmCalls + 1;
      tokens := tokens + spent;
    }

    method AddGap(code: string)
      modifies this
      ensures View() == old(View()).WithGap(code)
    {
      gaps := gaps + [code];
    }

    method AddEvidence(e: Evidence)
      modifies this
      ensures View() == old(View()).(evidence := WithEvidence(old(evidence), e))
    {
      if e.id == "" {
        return;
      }
      var repeated := FindDigest(evidence, e.digest);
      if !repeated {
        evidence := evidence + [e];
      }
    }

    method Invoke(c: Setup, name: string, given: ToolResult) returns (result: ToolResult)
      modifies this
      ensures (View(), result) == Invoked(c, old(View()), name, given)
    {
      if name !in c.registry {
        return Refused("MAS-8006");
      }
      if c.budget.maxToolCalls > 0 && calls >= c.budget.maxToolCalls {
        return Refused("MAS-3007");
      }
      calls := calls + 1;
      return given;
    }

    /** The tool calls of one reply. */
    method UseTools(c: Setup, d: Domain, t: Turn, list: seq<string>, w: World)
      returns (usable: bool, repairs: nat)
      modifies this
      ensures Drive(c, old(View()), d, Using(t, list, false), w)
           == Drive(c, View(), d, Using(t.(repairs := repairs), [], usable), w)
    {
      hide Drive, Invoked, WithEvidence;
      usable, repairs := false, t.repairs;
      assert list[0..] == list;
      for i := 0 to |list|
        invariant Drive(c, old(View()), d, Using(t, list, false), w)
               == Drive(c, View(), d, Using(t.(repairs := repairs), list[i..], usable), w)
      {
        assert list[i..][1..] == list[i + 1..];
        CallUnfolds(c, View(), d, t.(repairs := repairs), list[i..], usable, w);
        var result := Invoke(c, list[i], w.tool(t.number, |list| - i));
        match result {
          case Refused(code) =>
            AddGap(code);
            repairs := Repaired(repairs, code);
          case Data(e) =>
            usable := true;
            AddEvidence(e);
        }
      }
      assert list[|list|..] == [];
    }

    /** It always comes back with a text, whatever failed on the way. */
    method RunLoop(c: Setup, d: Domain, w: World) returns (text: string)
      modifies this
      ensures (View(), text) == Drive(c, old(View()), d, Start(), w)
    {
      hide Drive, AfterConsume, Refusal, Blank, WithEvidence, Advance, Returned, Used, Asked, Answered, Judged;
      text := "";
      var repairs: nat := 0;
      for turn := 0 to MAX_TURNS
        invariant FromTurn(c, View(), d, turn, text, repairs, w) == Drive(c, old(View()), d, Start(), w)
      {
        TurnBegins(c, View(), d, Turn(turn, text, repairs), w);
        var ok := ConsumeStep(c.budget, w.late(turn));
        if !ok {
          AddGap("MAS-3005");
          return;
        }
        ReplyComes(c, View(), d, Turn(turn, text, repairs), w);
        var r := w.reply(turn);
        AddUsage(r.tokens);
        if r.failed.Some? {
          AddGap(r.failed.value);
          return;
        }
        if r.refused {
          AddGap("MAS-2006");
          return;
        }
        if !Blank(r.text) {
          text := r.text;
        }
        if r.calls == [] {
          return;
        }
        var usable;
        usable, repairs := UseTools(c, d, Turn(turn, text, repairs), r.calls, w);
        TurnEnds(c, View(), d, Turn(turn, text, repairs), usable, w);
        if !usable && repairs > MAX_REPAIRS {
          AddGap("MAS-2004");
          return;
        }
      }
      AddGap("MAS-3010");
    }

    method InvestigatorStep(c: Setup, d: Domain, w: World)
      modifies this
      ensures var (s, text) := Drive(c, old(View()), d, Start(), w); View() == Noted(s, d, text)
    {
      var text := RunLoop(c, d, w);
      if !Blank(text) {
        notes := notes + [FindingsNote(d, text)];
      }
    }
  }

  // --- the method's result is that of a schedule ------------------------------------------------------

  lemma {:induction false} Prepend(c: Setup, start: System, e: Event, rest: seq<Event>)
    requires Enabled(c, start, e) && Legal(c, After(c, start, e), rest)
    ensures Legal(c, start, [e] + rest) && Ran(c, start, [e] + rest) == Ran(c, After(c, start, e), rest)
  {
    hide After, Enabled;
    if rest == [] {
      assert [e] + rest == [e] && [e][..0] == [];
      assert Legal(c, start, []) && Ran(c, start, []) == start;
    } else {
      var init := rest[..|rest| - 1];
      Prepend(c, start, e, init);
      assert ([e] + rest)[..|rest|] == [e] + init;
    }
  }

  /** Any investigator may run its loop through while the others stand still, and then Drive says what it leaves. */
  lemma {:induction false} RunsAlone(c: Setup, sys: System, i: nat, w: World) returns (events: seq<Event>)
    requires Shaped(c, sys) && i < |sys.pcs| && InLoop(sys.pcs[i])
    ensures Legal(c, sys, events)
    ensures var (s, text) := Drive(c, sys.shared, c.domains[i], sys.pcs[i], w);
            Ran(c, sys, events) == System(s, sys.pcs[i := Noting(text)])
    decreases Rank(sys.pcs[i]), CallsLeft(sys.pcs[i])
  {
    var pc, d := sys.pcs[i], c.domains[i];
    if pc.Noting? {
      events := [];
      assert sys.pcs[i := pc] == sys.pcs;
    } else {
      var e := Event(i, Given(w, pc));
      var next := After(c, sys, e);
      DriveUnfolds(c, sys.shared, d, pc, w);
      StepDescends(c, sys.shared, d, pc, w);
      hide Drive, Advance, Legal, Ran, Rank, CallsLeft;
      var rest := RunsAlone(c, next, i, w);
      Prepend(c, sys, e, rest);
      events := [e] + rest;
      var last := Noting(Drive(c, sys.shared, d, pc, w).1);
      assert next.pcs[i := last] == sys.pcs[i := last];
    }
  }

  lemma StepDescends(c: Setup, s: Shared, d: Domain, pc: PC, w: World)
    requires InLoop(pc) && !pc.Noting?
    ensures var now := Advance(c, s, d, pc, Given(w, pc)).1;
            Rank(now) < Rank(pc) || (Rank(now) == Rank(pc) && CallsLeft(now) < CallsLeft(pc))
  {
    hide WithEvidence, Blank;
  }
}
