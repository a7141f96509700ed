/**
 * The reasoning loop of an investigator, and several of them running at once: every change to the shared
 * state is an atomic step of its own, the steps of different investigators interleave freely, and a
 * semaphore bounds how many run at a time. So a refused step and the gap that tells of it are two steps,
 * as are the check of the tool-call budget and its count.
 */
module Investigators {
  import opened Basics
  import opened GoStrings
  import opened Notes
  import opened Workspace

  const MAX_TURNS: nat := 6
  const MAX_REPAIRS: nat := 2

  // --- shared state -------------------------------------------------------------------------

  /** A budget of zero or less is no budget. `timed` says whether a wall-clock budget is set. */
  datatype Budget = Budget(maxSteps: int, maxToolCalls: int, maxTokens: int, timed: bool)

  datatype Setup = Setup(budget: Budget, registry: set<string>, domains: seq<Domain>, maxConcurrency: int)

  datatype Reason = Unspent | WallClock | StepsSpent | TokensSpent

  datatype Shared = Shared(
    steps: nat, llmCalls: nat, tokens: nat, calls: nat, truncated: bool, reason: Reason,
    evidence: seq<Evidence>, gaps: seq<string>, notes: seq<string>)
  {
    function WithGap(code: string): (r: Shared)
    {
      this.(gaps := gaps + [code])
    }
  }

  /** ConsumeStep's three checks, in their order; `late` is what the clock says. */
  function Refusal(b: Budget, s: Shared, late: bool): (r: Reason)
  {
    if b.timed && late then WallClock
    else if b.maxSteps > 0 && s.steps >= b.maxSteps then StepsSpent
    else if b.maxTokens > 0 && s.tokens >= b.maxTokens then TokensSpent
    else Unspent
  }

  function AfterConsume(b: Budget, s: Shared, late: bool): (r: Shared)
  {
    var why := Refusal(b, s, late);
    if why == Unspent then s.(steps := s.steps + 1)
    else s.(truncated := true, reason := if s.reason == Unspent then why else s.reason)
  }

  // --- one investigator, step by step --------------------------------------------------------------

  type TurnNumber = n: nat | n < MAX_TURNS

  /** The loop's own variables. */
  datatype Turn = Turn(number: TurnNumber, text: string, repairs: nat)

  datatype Reply = Reply(tokens: nat, failed: Option<string>, refused: bool, text: string, calls: seq<string>)

  /** Where an investigator goes on once it has recorded a gap. */
  datatype Onward = ToNote(text: string) | ToTools(t: Turn, todo: seq<string>, usable: bool)

  /**
   * `todo` holds the tool calls of the current reply that are still to be made, the next one first. An
   * investigator that owes a gap records it with its next step.
   */
  datatype PC =
    | Waiting
    | Asking(t: Turn)
    | Awaiting(t: Turn)
    | Judging(t: Turn, reply: Reply)
    | Using(t: Turn, todo: seq<string>, usable: bool)
    | Passed(t: Turn, todo: seq<string>, usable: bool)
    | Running(t: Turn, todo: seq<string>, usable: bool)
    | Owing(code: string, onward: Onward)
    | Noting(text: string)
    | Leaving(text: string)
    | Finished(text: string)

  datatype ToolResult = Data(e: Evidence) | Refused(code: string)

  /** What the surroundings contribute to a step. */
  datatype Input = Tick | Clock(late: bool) | Answer(reply: Reply) | Result(result: ToolResult)

  predicate Fits(pc: PC, input: Input)
  {
    match pc
    case Asking(_) => input.Clock?
    case Awaiting(_) => input.Answer?
    case Running(_, todo, _) => input.Result? && todo != []
    case Passed(_, todo, _) => input.Tick? && todo != []
    case Finished(_) => false
    case _ => input.Tick?
  }

  function Resumed(o: Onward): (pc: PC)
  {
    match o
    case ToNote(text) => Noting(text)
    case ToTools(t, todo, usable) => Using(t, todo, usable)
  }

  function Start(): (r: PC)
  {
    Asking(Turn(0, "", 0))
  }

  function Asked(c: Setup, s: Shared, t: Turn, late: bool): (r: (Shared, PC))
  {
    (AfterConsume(c.budget, s, late),
     if Refusal(c.budget, s, late) == Unspent then Awaiting(t) else Owing("MAS-3005", ToNote(t.text)))
  }

  function Answered(s: Shared, t: Turn, r: Reply): (next: (Shared, PC))
  {
    (s.(llmCalls := s.llmCalls + 1, tokens := s.tokens + r.tokens), Judging(t, r))
  }

  /** What the loop makes of a reply, without a look at the shared state. */
  function Judged(t: Turn, r: Reply): (next: PC)
  {
    var text := if Blank(r.text) then t.text else r.text;
    if r.failed.Some? then Owing(r.failed.value, ToNote(t.text))
    else if r.refused then Owing("MAS-2006", ToNote(t.text))
    else if r.calls == [] then Noting(text)
    else Using(t.(text := text), r.calls, false)
  }

  /** The next tool call up to the budget check, or the end of the turn when none is left. */
  function Used(c: Setup, s: Shared, t: Turn, todo: seq<string>, usable: bool): (next: PC)
  {
    if todo == [] then
      if !usable && t.repairs > MAX_REPAIRS then Owing("MAS-2004", ToNote(t.text))
      else if t.number + 1 == MAX_TURNS then Owing("MAS-3010", ToNote(t.text))
      else Asking(t.(number := t.number + 1))
    else if todo[0] !in c.registry then
      Owing("MAS-8006", ToTools(t.(repairs := t.repairs + 1), todo[1..], usable))
    else if c.budget.maxToolCalls > 0 && s.calls >= c.budget.maxToolCalls then
      Owing("MAS-3007", ToTools(t, todo[1..], usable))
    else Passed(t, todo, usable)
  }

  function Returned(s: Shared, t: Turn, todo: seq<string>, usable: bool, r: ToolResult): (next: (Shared, PC))
    requires todo != []
  {
    match r
    case Data(e) => (s.(evidence := WithEvidence(s.evidence, e)), Using(t, todo[1..], true))
    case Refused(code) => (s, Owing(code, ToTools(t.(repairs := Repaired(t.repairs, code)), todo[1..], usable)))
  }

  /** A malformed call counts as a repair; any other refusal does not. */
  function Repaired(repairs: nat, code: string): (n: nat)
  {
    if code == "MAS-8005" || code == "MAS-8006" then repairs + 1 else repairs
  }

  function Noted(s: Shared, d: Domain, text: string): (r: Shared)
  {
    if Blank(text) then s else s.(notes := s.notes + [FindingsNote(d, text)])
  }

  function Advance(c: Setup, s: Shared, d: Domain, pc: PC, input: Input): (r: (Shared, PC))
    requires Fits(pc, input)
  {
    match pc
    case Waiting => (s, Start())
    case Asking(t) => Asked(c, s, t, input.late)
    case Awaiting(t) => Answered(s, t, input.reply)
    case Judging(t, reply) => (s, Judged(t, reply))
    case Using(t, todo, usable) => (s, Used(c, s, t, todo, usable))
    case Passed(t, todo, usable) => (s.(calls := s.calls + 1), Running(t, todo, usable))
    case Running(t, todo, usable) => Returned(s, t, todo, usable, input.result)
    case Owing(code, onward) => (s.WithGap(code), Resumed(onward))
    case Noting(text) => (Noted(s, d, text), Leaving(text))
    case Leaving(text) => (s, Finished(text))
    case Finished(_) => (s, pc)
  }

  // --- many investigators --------------------------------------------------------------------------

  datatype System = System(shared: Shared, pcs: seq<PC>)

  datatype Event = Event(who: nat, input: Input)

  /** The semaphore's size. */
  function Limit(c: Setup): (k: nat)
    ensures k >= 1 && (c.maxConcurrency > 0 ==> k == c.maxConcurrency) && (c.maxConcurrency <= 0 ==> k == 4)
  {
    if c.maxConcurrency <= 0 then 4 else c.maxConcurrency
  }

  /** How many investigators can be past the semaphore at once. */
  function Width(c: Setup): (k: nat)
    ensures k <= Limit(c) && k <= |c.domains|
  {
    if |c.domains| < Limit(c) then |c.domains| else Limit(c)
  }

  predicate Holds(pc: PC)
  {
    !pc.Waiting? && !pc.Finished?
  }

  predicate Reserved(pc: PC)
  {
    pc.Awaiting?
  }

  predicate Admitted(pc: PC)
  {
    pc.Passed?
  }

  function Tally(pcs: seq<PC>, f: PC -> bool): (n: nat)
    ensures n <= |pcs|
  {
    if pcs == [] then 0
    else Tally(pcs[..|pcs| - 1], f) + (if f(pcs[|pcs| - 1]) then 1 else 0)
  }

  predicate Shaped(c: Setup, sys: System)
  {
    |sys.pcs| == |c.domains|
  }

  /** A goroutine past the semaphore can always step; one in front of it needs a free slot. */
  predicate Enabled(c: Setup, sys: System, e: Event)
  {
    && Shaped(c, sys)
    && e.who < |sys.pcs|
    && Fits(sys.pcs[e.who], e.input)
    && (sys.pcs[e.who].Waiting? ==> Tally(sys.pcs, Holds) < Limit(c))
  }

  function After(c: Setup, sys: System, e: Event): (next: System)
    requires Enabled(c, sys, e)
    ensures Shaped(c, next)
  {
    var r := Advance(c, sys.shared, c.domains[e.who], sys.pcs[e.who], e.input);
    System(r.0, sys.pcs[e.who := r.1])
  }

  /** Every event of the schedule is enabled when its turn comes. */
  predicate Legal(c: Setup, start: System, events: seq<Event>)
    decreases |events|, 0
  {
    events == [] || (Legal(c, start, events[..|events| - 1])
                     && Enabled(c, Ran(c, start, events[..|events| - 1]), events[|events| - 1]))
  }

  function Ran(c: Setup, start: System, events: seq<Event>): (r: System)
    requires Legal(c, start, events)
    decreases |events|, 1
  {
    if events == [] then start
    else After(c, Ran(c, start, events[..|events| - 1]), events[|events| - 1])
  }

  predicate AtStart(c: Setup, sys: System)
  {
    Shaped(c, sys) && forall i :: 0 <= i < |sys.pcs| ==> sys.pcs[i] == Waiting
  }

  predicate AllDone(sys: System)
  {
    forall i :: 0 <= i < |sys.pcs| ==> sys.pcs[i].Finished?
  }

  // --- counting ---------------------------------------------------------------------------------------

  lemma {:induction false} TallyUpdate(pcs: seq<PC>, i: nat, pc: PC, f: PC -> bool)
    requires i < |pcs|
    ensures Tally(pcs[i := pc], f) + (if f(pcs[i]) then 1 else 0) == Tally(pcs, f) + (if f(pc) then 1 else 0)
  {
    var init, last := pcs[..|pcs| - 1], |pcs| - 1;
    if i == last {
      assert pcs[i := pc][..last] == init;
    } else {
      TallyUpdate(init, i, pc, f);
      assert pcs[i := pc][..last] == init[i := pc];
    }
  }

  lemma {:induction false} TallyNone(pcs: seq<PC>, f: PC -> bool)
    requires forall i :: 0 <= i < |pcs| ==> !f(pcs[i])
    ensures Tally(pcs, f) == 0
  {
    if pcs != [] {
      TallyNone(pcs[..|pcs| - 1], f);
    }
  }

  lemma {:induction false} TallySome(pcs: seq<PC>, f: PC -> bool) returns (i: nat)
    requires Tally(pcs, f) > 0
    ensures i < |pcs| && f(pcs[i])
  {
    if f(pcs[|pcs| - 1]) {
      i := |pcs| - 1;
    } else {
      i := TallySome(pcs[..|pcs| - 1], f);
    }
  }

  lemma {:induction false} TallyFewer(pcs: seq<PC>, f: PC -> bool, g: PC -> bool)
    requires forall pc :: f(pc) ==> g(pc)
    ensures Tally(pcs, f) <= Tally(pcs, g)
  {
    if pcs != [] {
      TallyFewer(pcs[..|pcs| - 1], f, g);
    }
  }

  lemma {:induction false} TallyApart(pcs: seq<PC>, f: PC -> bool, g: PC -> bool, i: nat)
    requires forall pc :: f(pc) ==> g(pc)
    requires i < |pcs| && g(pcs[i]) && !f(pcs[i])
    ensures Tally(pcs, f) < Tally(pcs, g)
  {
    var init := pcs[..|pcs| - 1];
    if i == |pcs| - 1 {
      TallyFewer(init, f, g);
    } else {
      TallyApart(init, f, g, i);
    }
  }

  // --- budgets -----------------------------------------------------------------------------------------

  /** No reply costs more than `cap` tokens. */
  predicate Capped(e: Event, cap: nat)
  {
    e.input.Answer? ==> e.input.reply.tokens <= cap
  }

  predicate AllCapped(events: seq<Event>, cap: nat)
  {
    forall i :: 0 <= i < |events| ==> Capped(events[i], cap)
  }

  predicate StepsWithin(c: Setup, s: Shared)
  {
    c.budget.maxSteps > 0 ==> s.steps <= c.budget.maxSteps
  }

  /** What is spent, and what is already on its way, against each budget. */
  predicate Within(c: Setup, cap: nat, sys: System)
  {
    && Shaped(c, sys)
    && Tally(sys.pcs, Holds) <= Width(c)
    && StepsWithin(c, sys.shared)
    && (c.budget.maxTokens > 0 ==>
          sys.shared.tokens + cap * Tally(sys.pcs, Reserved) <= c.budget.maxTokens - 1 + cap * Width(c))
    && (c.budget.maxToolCalls > 0 ==>
          sys.shared.calls + Tally(sys.pcs, Admitted) <= c.budget.maxToolCalls - 1 + Width(c))
  }

  lemma Scaled(cap: nat, m: nat, n: nat)
    requires m <= n
    ensures cap * m <= cap * n
  {
  }

  lemma TalliesAfter(c: Setup, sys: System, e: Event, f: PC -> bool)
    requires Enabled(c, sys, e)
    ensures var was, now := sys.pcs[e.who], After(c, sys, e).pcs[e.who];
            Tally(After(c, sys, e).pcs, f) + (if f(was) then 1 else 0) == Tally(sys.pcs, f) + (if f(now) then 1 else 0)
  {
    hide Advance;
    TallyUpdate(sys.pcs, e.who, After(c, sys, e).pcs[e.who], f);
  }

  lemma HoldersStep(c: Setup, sys: System, e: Event)
    requires Enabled(c, sys, e) && Tally(sys.pcs, Holds) <= Width(c)
    ensures Tally(After(c, sys, e).pcs, Holds) <= Width(c)
  {
    TalliesAfter(c, sys, e, Holds);
  }

  lemma TokensStep(c: Setup, cap: nat, sys: System, e: Event)
    requires Enabled(c, sys, e) && Capped(e, cap) && Within(c, cap, sys) && c.budget.maxTokens > 0
    ensures var next := After(c, sys, e);
            next.shared.tokens + cap * Tally(next.pcs, Reserved) <= c.budget.maxTokens - 1 + cap * Width(c)
  {
    hide Tally, Limit, Width, After;
    var next := After(c, sys, e);
    TalliesAfter(c, sys, e, Reserved);
    TokensMove(c, cap, sys, e);
    if next.pcs[e.who].Awaiting? {
      HoldersStep(c, sys, e);
      TallyFewer(next.pcs, Reserved, Holds);
      Scaled(cap, Tally(next.pcs, Reserved), Width(c));
    } else if sys.pcs[e.who].Awaiting? {
      assert cap * (Tally(next.pcs, Reserved) + 1) == cap * Tally(next.pcs, Reserved) + cap;
    }
  }

  /** Who may enter Awaiting, and when tokens are recorded. */
  lemma TokensMove(c: Setup, cap: nat, sys: System, e: Event)
    requires Enabled(c, sys, e) && Capped(e, cap)
    ensures var next := After(c, sys, e);
            && (if sys.pcs[e.who].Awaiting? then next.shared.tokens <= sys.shared.tokens + cap
                else next.shared.tokens == sys.shared.tokens)
            && (next.pcs[e.who].Awaiting? ==> !sys.pcs[e.who].Awaiting?)
            && (next.pcs[e.who].Awaiting? && c.budget.maxTokens > 0 ==> sys.shared.tokens < c.budget.maxTokens)
  {
    hide Tally, Limit, WithEvidence, Blank, FindingsNote;
  }

  lemma CallsStep(c: Setup, cap: nat, sys: System, e: Event)
    requires Enabled(c, sys, e) && Within(c, cap, sys) && c.budget.maxToolCalls > 0
    ensures var next := After(c, sys, e);
            next.shared.calls + Tally(next.pcs, Admitted) <= c.budget.maxToolCalls - 1 + Width(c)
  {
    hide Tally, Limit, Width, After;
    var next := After(c, sys, e);
    TalliesAfter(c, sys, e, Admitted);
    CallsMove(c, sys, e);
    if next.pcs[e.who].Passed? {
      HoldersStep(c, sys, e);
      TallyFewer(next.pcs, Admitted, Holds);
    }
  }

  /** Who may enter Passed, and when the counter moves. */
  lemma CallsMove(c: Setup, sys: System, e: Event)
    requires Enabled(c, sys, e)
    ensures var next := After(c, sys, e);
            && next.shared.calls == sys.shared.calls + (if sys.pcs[e.who].Passed? then 1 else 0)
            && (next.pcs[e.who].Passed? ==> !sys.pcs[e.who].Passed?)
            && (next.pcs[e.who].Passed? && c.budget.maxToolCalls > 0 ==> sys.shared.calls < c.budget.maxToolCalls)
  {
    hide Tally, Limit, WithEvidence, Blank, FindingsNote;
  }

  lemma StepsStep(c: Setup, sys: System, e: Event)
    requires Enabled(c, sys, e) && StepsWithin(c, sys.shared)
    ensures StepsWithin(c, After(c, sys, e).shared)
  {
    hide Tally, Limit, WithEvidence, Blank, FindingsNote;
  }

  lemma {:induction false} WithinAlways(c: Setup, cap: nat, start: System, events: seq<Event>)
    requires Within(c, cap, start) && Legal(c, start, events) && AllCapped(events, cap)
    ensures Within(c, cap, Ran(c, start, events))
  {
    hide Tally, After, Limit, Width;
    if events != [] {
      var init, last := events[..|events| - 1], events[|events| - 1];
      WithinAlways(c, cap, start, init);
      var sys := Ran(c, start, init);
      HoldersStep(c, sys, last);
      StepsStep(c, sys, last);
      if c.budget.maxTokens > 0 {
        TokensStep(c, cap, sys, last);
      }
      if c.budget.maxToolCalls > 0 {
        CallsStep(c, cap, sys, last);
      }
    }
  }

  /**
   * Whatever the schedule: reasoning steps stay within their budget, tokens overrun theirs by less than one
   * reply for each investigator that can run at once, and tool calls by less than one call for each of them.
   */
  lemma BudgetsHold(c: Setup, cap: nat, start: System, events: seq<Event>)
    requires AtStart(c, start) && Legal(c, start, events) && AllCapped(events, cap)
    requires StepsWithin(c, start.shared)
    requires c.budget.maxTokens > 0 ==> start.shared.tokens <= c.budget.maxTokens - 1 + cap * Width(c)
    requires c.budget.maxToolCalls > 0 ==> start.shared.calls <= c.budget.maxToolCalls - 1 + Width(c)
    ensures var s := Ran(c, start, events).shared;
            && StepsWithin(c, s)
            && (c.budget.maxTokens > 0 ==> s.tokens <= c.budget.maxTokens - 1 + cap * Width(c))
            && (c.budget.maxToolCalls > 0 ==> s.calls <= c.budget.maxToolCalls - 1 + Width(c))
    ensures Tally(Ran(c, start, events).pcs, Holds) <= Width(c)
  {
    TallyNone(start.pcs, Holds);
    TallyNone(start.pcs, Reserved);
    TallyNone(start.pcs, Admitted);
    hide Tally, Ran, Legal, Limit, Width;
    WithinAlways(c, cap, start, events);
    Scaled(cap, 0, Tally(Ran(c, start, events).pcs, Reserved));
  }

  // --- accounts -----------------------------------------------------------------------------------------

  /** Between a refused step and the gap that tells of it. */
  predicate OwesCut(pc: PC)
  {
    pc.Owing? && pc.code == "MAS-3005"
  }

  /**
   * Every step reserved is a model call made or on its way, nothing collected is lost, and a run flagged as
   * cut has a gap that says so, or an investigator that is about to record one.
   */
  predicate Accounted(start: Shared, sys: System)
  {
    && sys.shared.steps - start.steps == sys.shared.llmCalls - start.llmCalls + Tally(sys.pcs, Reserved)
    && start.gaps <= sys.shared.gaps
    && start.evidence <= sys.shared.evidence
    && (sys.shared.truncated <==>
          start.truncated || "MAS-3005" in sys.shared.gaps[|start.gaps|..] || Tally(sys.pcs, OwesCut) > 0)
    && (start.truncated ==> sys.shared.reason == start.reason)
    && (sys.shared.truncated <==> sys.shared.reason != Unspent)
  }

  /** What one step may do to the accounts. */
  predicate Accounts(was: Shared, from: PC, now: Shared, to: PC)
  {
    && now.steps - was.steps == (if !from.Awaiting? && to.Awaiting? then 1 else 0)
    && now.llmCalls - was.llmCalls == (if from.Awaiting? && !to.Awaiting? then 1 else 0)
    && now.gaps == (if from.Owing? then was.gaps + [from.code] else was.gaps)
    && was.evidence <= now.evidence
    && (now.truncated <==> was.truncated || OwesCut(to))
    && (was.reason != Unspent ==> now.reason == was.reason)
    && (was.reason == Unspent ==> (now.reason != Unspent <==> OwesCut(to)))
  }

  /** The codes a step may report on behalf of the outside: none of them is the loop's own MAS-3005. */
  predicate Foreign(e: Event)
  {
    && (e.input.Answer? && e.input.reply.failed.Some? ==> e.input.reply.failed.value != "MAS-3005")
    && (e.input.Result? && e.input.result.Refused? ==> e.input.result.code != "MAS-3005")
  }

  /** A reply that is being judged came from the outside as well. */
  predicate ForeignReply(pc: PC)
  {
    pc.Judging? && pc.reply.failed.Some? ==> pc.reply.failed.value != "MAS-3005"
  }

  lemma Untouched(was: Shared, from: PC, now: Shared, to: PC)
    requires !from.Owing? && !from.Awaiting? && !to.Awaiting? && !OwesCut(to)
    requires now == was.(calls := now.calls, notes := now.notes)
    ensures Accounts(was, from, now, to)
  {
  }

  lemma AskedAccounts(c: Setup, s: Shared, t: Turn, late: bool)
    ensures Accounts(s, Asking(t), Asked(c, s, t, late).0, Asked(c, s, t, late).1)
  {
  }

  lemma ReturnedAccounts(s: Shared, t: Turn, todo: seq<string>, usable: bool, r: ToolResult)
    requires todo != [] && (r.Refused? ==> r.code != "MAS-3005")
    ensures Accounts(s, Running(t, todo, usable), Returned(s, t, todo, usable, r).0, Returned(s, t, todo, usable, r).1)
  {
    hide KnownDigest;
  }

  lemma NoCutInUse(c: Setup, s: Shared, t: Turn, todo: seq<string>, usable: bool)
    ensures var to := Used(c, s, t, todo, usable); !OwesCut(to) && !to.Awaiting?
  {
  }

  lemma NoCutInReply(t: Turn, r: Reply)
    requires ForeignReply(Judging(t, r))
    ensures var to := Judged(t, r); !OwesCut(to) && !to.Awaiting?
  {
    hide Blank;
  }

  lemma AccountsStep(c: Setup, sys: System, e: Event)
    requires Enabled(c, sys, e) && Foreign(e) && ForeignReply(sys.pcs[e.who])
    ensures Accounts(sys.shared, sys.pcs[e.who], After(c, sys, e).shared, After(c, sys, e).pcs[e.who])
  {
    hide Tally, Limit, Asked, Judged, Used, Returned, Noted, Accounts, OwesCut;
    var s, d, pc := sys.shared, c.domains[e.who], sys.pcs[e.who];
    match pc {
      case Waiting => StartIsNoCut(); Untouched(s, pc, s, Start());
      case Asking(t) => AskedAccounts(c, s, t, e.input.late);
      case Awaiting(t) => AnsweredAccounts(s, t, e.input.reply);
      case Judging(t, reply) => NoCutInReply(t, reply); Untouched(s, pc, s, Judged(t, reply));
      case Using(t, todo, usable) => NoCutInUse(c, s, t, todo, usable); Untouched(s, pc, s, Used(c, s, t, todo, usable));
      case Passed(t, todo, usable) => CountedAccounts(s, t, todo, usable);
      case Running(t, todo, usable) => ReturnedAccounts(s, t, todo, usable, e.input.result);
      case Owing(code, onward) => OwingAccounts(s, code, onward);
      case Noting(text) => NotedAccounts(s, d, text);
      case Leaving(text) => LeavingAccounts(s, text);
    }
  }

  lemma StartIsNoCut()
    ensures !OwesCut(Start())
  {
  }

  lemma AnsweredAccounts(s: Shared, t: Turn, r: Reply)
    ensures Accounts(s, Awaiting(t), Answered(s, t, r).0, Answered(s, t, r).1)
  {
  }

  lemma CountedAccounts(s: Shared, t: Turn, todo: seq<string>, usable: bool)
    ensures Accounts(s, Passed(t, todo, usable), s.(calls := s.calls + 1), Running(t, todo, usable))
  {
  }

  lemma OwingAccounts(s: Shared, code: string, onward: Onward)
    ensures Accounts(s, Owing(code, onward), s.WithGap(code), Resumed(onward))
  {
  }

  lemma NotedAccounts(s: Shared, d: Domain, text: string)
    ensures Accounts(s, Noting(text), Noted(s, d, text), Leaving(text))
  {
    hide Blank, FindingsNote;
  }

  lemma LeavingAccounts(s: Shared, text: string)
    ensures Accounts(s, Leaving(text), s, Finished(text))
  {
  }

  lemma GapsGrow(start: seq<string>, was: seq<string>, now: seq<string>, code: string)
    requires start <= was && now == was + [code]
    ensures start <= now && now[|start|..] == was[|start|..] + [code]
  {
  }

  lemma AccountedStep(start: Shared, was: System, now: System, from: PC, to: PC)
    requires Accounted(start, was) && Accounts(was.shared, from, now.shared, to)
    requires Tally(now.pcs, Reserved) + (if Reserved(from) then 1 else 0) == Tally(was.pcs, Reserved) + (if Reserved(to) then 1 else 0)
    requires Tally(now.pcs, OwesCut) + (if OwesCut(from) then 1 else 0) == Tally(was.pcs, OwesCut) + (if OwesCut(to) then 1 else 0)
    ensures Accounted(start, now)
  {
    hide Tally;
    if from.Owing? {
      GapsGrow(start.gaps, was.shared.gaps, now.shared.gaps, from.code);
    }
  }

  /** No reply on its way to be judged carries the loop's own code. */
  predicate ForeignReplies(sys: System)
  {
    forall i :: 0 <= i < |sys.pcs| ==> ForeignReply(sys.pcs[i])
  }

  lemma ForeignStep(c: Setup, sys: System, e: Event)
    requires Enabled(c, sys, e) && Foreign(e) && ForeignReplies(sys)
    ensures ForeignReplies(After(c, sys, e))
  {
    hide Tally, Limit, WithEvidence, Blank, FindingsNote;
    assert ForeignReply(After(c, sys, e).pcs[e.who]);
  }

  lemma {:induction false} AccountsHold(c: Setup, start: System, events: seq<Event>)
    requires AtStart(c, start) && Legal(c, start, events) && forall i :: 0 <= i < |events| ==> Foreign(events[i])
    requires start.shared.truncated <==> start.shared.reason != Unspent
    ensures Accounted(start.shared, Ran(c, start, events)) && ForeignReplies(Ran(c, start, events))
  {
    hide Tally, After, Accounts, OwesCut;
    if events == [] {
      NothingOwed(c, start);
    } else {
      var init, last := events[..|events| - 1], events[|events| - 1];
      AccountsHold(c, start, init);
      var sys := Ran(c, start, init);
      AccountsStep(c, sys, last);
      ForeignStep(c, sys, last);
      TalliesAfter(c, sys, last, Reserved);
      TalliesAfter(c, sys, last, OwesCut);
      AccountedStep(start.shared, sys, After(c, sys, last), sys.pcs[last.who], After(c, sys, last).pcs[last.who]);
    }
  }

  lemma NothingOwed(c: Setup, start: System)
    requires AtStart(c, start)
    ensures Tally(start.pcs, Reserved) == 0 && Tally(start.pcs, OwesCut) == 0
  {
    TallyNone(start.pcs, Reserved);
    TallyNone(start.pcs, OwesCut);
  }

  /**
   * At every point of every schedule: one model call for each step but those on their way, the first reason
   * kept, nothing collected lost, and the run flagged as cut exactly when a gap says so or an investigator is
   * just about to record one; so once all are done, exactly when a gap says so.
   */
  lemma EverythingIsAccounted(c: Setup, start: System, events: seq<Event>)
    requires AtStart(c, start) && Legal(c, start, events) && forall i :: 0 <= i < |events| ==> Foreign(events[i])
    requires start.shared.truncated <==> start.shared.reason != Unspent
    ensures var last := Ran(c, start, events);
            && Accounted(start.shared, last)
            && (AllDone(last) ==>
                  && last.shared.steps - start.shared.steps == last.shared.llmCalls - start.shared.llmCalls
                  && (last.shared.truncated <==>
                        start.shared.truncated || "MAS-3005" in last.shared.gaps[|start.shared.gaps|..]))
  {
    AccountsHold(c, start, events);
    var last := Ran(c, start, events);
    if AllDone(last) {
      TallyNone(last.pcs, Reserved);
      TallyNone(last.pcs, OwesCut);
    }
  }

  /** In between the flag does come first: some schedule reaches a point at which no gap tells of the cut yet. */
  lemma FlagComesFirst(c: Setup, start: System) returns (events: seq<Event>)
    requires AtStart(c, start) && c.domains != [] && c.budget.timed
    requires !start.shared.truncated && start.shared.gaps == []
    ensures Legal(c, start, events)
    ensures Ran(c, start, events).shared.truncated && Ran(c, start, events).shared.gaps == []
  {
    TallyNone(start.pcs, Holds);
    var enter, ask := Event(0, Tick), Event(0, Clock(true));
    events := [enter, ask];
    assert [enter, ask][..1] == [enter] && [enter][..0] == [];
    assert Legal(c, start, []) && Ran(c, start, []) == start;
    assert Legal(c, start, [enter]) && Ran(c, start, [enter]) == After(c, start, enter);
  }
}
