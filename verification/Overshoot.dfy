/** The bounds on tokens and tool calls are exact: schedules of every size reach them, because checks precede counts. */
module Overshoot {
  import opened Basics
  import opened Notes
  import opened Investigators

  const TOOL := "query_range"

  function Calls(n: nat): (todo: seq<string>)
    ensures |todo| == n && forall i :: 0 <= i < n ==> todo[i] == TOOL
  {
    seq(n, i => TOOL)
  }

  /** `k` investigators, and `k` slots for them. */
  function Crowd(b: Budget, k: nat): (c: Setup)
    requires k <= |DOMAINS|
  {
    Setup(b, {TOOL}, DOMAINS[..k], k)
  }

  function Fresh(k: nat, tokens: nat): (sys: System)
  {
    System(Shared(0, 0, tokens, 0, false, Unspent, [], [], []), seq(k, i => Waiting))
  }

  lemma CrowdWidth(b: Budget, k: nat)
    requires 1 <= k <= |DOMAINS|
    ensures Limit(Crowd(b, k)) == Width(Crowd(b, k)) == |Crowd(b, k).domains| == k
  {
  }

  /** A schedule that leads from one state to another, with no reply over `cap` tokens. */
  ghost predicate Leads(c: Setup, start: System, events: seq<Event>, cap: nat, sys: System)
  {
    Legal(c, start, events) && Ran(c, start, events) == sys && AllCapped(events, cap)
  }

  lemma NoEvents(c: Setup, start: System, cap: nat)
    ensures Leads(c, start, [], cap, start)
  {
  }

  /** One more event, and what it does to the investigator and to the shared state. */
  lemma Go(c: Setup, start: System, events: seq<Event>, cap: nat, sys: System, i: nat, input: Input)
    returns (longer: seq<Event>)
    requires Leads(c, start, events, cap, sys) && Enabled(c, sys, Event(i, input)) && Capped(Event(i, input), cap)
    ensures var r := Advance(c, sys.shared, c.domains[i], sys.pcs[i], input);
            Leads(c, start, longer, cap, System(r.0, sys.pcs[i := r.1]))
  {
    hide Advance, Enabled, Capped;
    longer := events + [Event(i, input)];
    assert longer[..|events|] == events;
  }

  lemma FreeSlot(c: Setup, sys: System, i: nat)
    requires Shaped(c, sys) && |c.domains| == Limit(c) && i < |sys.pcs| && sys.pcs[i].Waiting?
    ensures Tally(sys.pcs, Holds) < Limit(c)
  {
    TallyApart(sys.pcs, Holds, pc => true, i);
  }

  const FIRST := Turn(0, "", 0)

  /** An investigator enters and is granted its first step. */
  lemma Enter(b: Budget, k: nat, start: System, events: seq<Event>, cap: nat, sys: System, i: nat)
    returns (longer: seq<Event>, now: System)
    requires i < k <= |DOMAINS| && b.maxSteps <= 0 && !b.timed && (b.maxTokens > 0 ==> sys.shared.tokens < b.maxTokens)
    requires Leads(Crowd(b, k), start, events, cap, sys) && Shaped(Crowd(b, k), sys) && sys.pcs[i].Waiting?
    ensures Leads(Crowd(b, k), start, longer, cap, now) && now.pcs == sys.pcs[i := Awaiting(FIRST)]
    ensures now.shared == sys.shared.(steps := sys.shared.steps + 1)
  {
    var c := Crowd(b, k);
    CrowdWidth(b, k);
    FreeSlot(c, sys, i);
    hide Leads, Tally;
    var entered := Go(c, start, events, cap, sys, i, Tick);
    var there := System(sys.shared, sys.pcs[i := Start()]);
    longer := Go(c, start, entered, cap, there, i, Clock(false));
    now := System(sys.shared.(steps := sys.shared.steps + 1), sys.pcs[i := Awaiting(FIRST)]);
    assert there.pcs[i := Awaiting(FIRST)] == now.pcs;
  }

  // --- tokens ----------------------------------------------------------------------------------------

  function TokenBudget(max: nat): (b: Budget)
  {
    Budget(0, 0, max, false)
  }

  /** The first `i` investigators wait for their replies. */
  lemma {:induction false} AllAsk(max: nat, cap: nat, k: nat, i: nat) returns (events: seq<Event>, sys: System)
    requires i <= k && 1 <= k <= |DOMAINS| && 1 <= max
    ensures Leads(Crowd(TokenBudget(max), k), Fresh(k, max - 1), events, cap, sys)
    ensures |sys.pcs| == k && sys.shared.tokens == max - 1
    ensures forall j :: 0 <= j < k ==> sys.pcs[j] == if j < i then Awaiting(FIRST) else Waiting
  {
    var c, start := Crowd(TokenBudget(max), k), Fresh(k, max - 1);
    if i == 0 {
      events, sys := [], start;
      NoEvents(c, start, cap);
    } else {
      var before, there := AllAsk(max, cap, k, i - 1);
      hide Leads;
      events, sys := Enter(TokenBudget(max), k, start, before, cap, there, i - 1);
    }
  }

  /** The first `i` replies have come, each as long as may be. */
  lemma {:induction false} AllAnswer(max: nat, cap: nat, k: nat, i: nat) returns (events: seq<Event>, sys: System)
    requires i <= k && 1 <= k <= |DOMAINS| && 1 <= max
    ensures Leads(Crowd(TokenBudget(max), k), Fresh(k, max - 1), events, cap, sys)
    ensures |sys.pcs| == k && sys.shared.tokens == max - 1 + cap * i
    ensures forall j :: i <= j < k ==> sys.pcs[j] == Awaiting(FIRST)
  {
    var c, start := Crowd(TokenBudget(max), k), Fresh(k, max - 1);
    if i == 0 {
      events, sys := AllAsk(max, cap, k, k);
    } else {
      var before, there := AllAnswer(max, cap, k, i - 1);
      hide Leads, Tally;
      var reply := Reply(cap, None, false, "", []);
      events := Go(c, start, before, cap, there, i - 1, Answer(reply));
      var r := Answered(there.shared, FIRST, reply);
      sys := System(r.0, there.pcs[i - 1 := r.1]);
      assert cap * (i - 1) + cap == cap * i;
    }
  }

  /**
   * For every token budget, every length of reply and every number of investigators: when all but one token
   * of the budget is spent, some schedule ends with one full reply of each of them on top.
   */
  lemma TokenBudgetIsOverrun(max: nat, cap: nat, k: nat) returns (events: seq<Event>)
    requires 1 <= max && 1 <= k <= |DOMAINS|
    ensures var c, start := Crowd(TokenBudget(max), k), Fresh(k, max - 1);
            && AtStart(c, start) && Legal(c, start, events) && AllCapped(events, cap)
            && Ran(c, start, events).shared.tokens == max - 1 + cap * Width(c)
  {
    CrowdWidth(TokenBudget(max), k);
    var sys;
    events, sys := AllAnswer(max, cap, k, k);
  }

  // --- tool calls --------------------------------------------------------------------------------------

  function ToolBudget(max: nat): (b: Budget)
  {
    Budget(0, max, 0, false)
  }

  /** A reply that asks for `n` calls. */
  lemma AskForCalls(b: Budget, k: nat, events: seq<Event>, sys: System, i: nat, n: nat)
    returns (longer: seq<Event>, now: System)
    requires i < k <= |DOMAINS| && n > 0 && Shaped(Crowd(b, k), sys) && sys.pcs[i] == Awaiting(FIRST)
    requires Leads(Crowd(b, k), Fresh(k, 0), events, 0, sys)
    ensures Leads(Crowd(b, k), Fresh(k, 0), longer, 0, now) && now.shared.calls == sys.shared.calls
    ensures now.pcs == sys.pcs[i := Using(FIRST, Calls(n), false)]
  {
    var c := Crowd(b, k);
    hide Leads, Tally, Calls;
    var reply := Reply(0, None, false, "", Calls(n));
    var answered := Go(c, Fresh(k, 0), events, 0, sys, i, Answer(reply));
    var there := System(Answered(sys.shared, FIRST, reply).0, sys.pcs[i := Judging(FIRST, reply)]);
    longer := Go(c, Fresh(k, 0), answered, 0, there, i, Tick);
    now := System(there.shared, sys.pcs[i := Using(FIRST, Calls(n), false)]);
    assert there.pcs[i := Using(FIRST, Calls(n), false)] == now.pcs;
  }

  /** The budget check alone. */
  lemma Pass(max: nat, k: nat, events: seq<Event>, sys: System, i: nat, n: nat) returns (longer: seq<Event>)
    requires i < k <= |DOMAINS| && n > 0 && Shaped(Crowd(ToolBudget(max), k), sys) && sys.shared.calls < max
    requires sys.pcs[i] == Using(FIRST, Calls(n), false)
    requires Leads(Crowd(ToolBudget(max), k), Fresh(k, 0), events, 0, sys)
    ensures Leads(Crowd(ToolBudget(max), k), Fresh(k, 0), longer, 0,
                  System(sys.shared, sys.pcs[i := Passed(FIRST, Calls(n), false)]))
  {
    hide Leads, Tally, Calls;
    longer := Go(Crowd(ToolBudget(max), k), Fresh(k, 0), events, 0, sys, i, Tick);
  }

  /** One tool call from the check until it is counted. */
  lemma Count(max: nat, k: nat, events: seq<Event>, sys: System, i: nat, n: nat) returns (longer: seq<Event>)
    requires i < k <= |DOMAINS| && n > 0 && Shaped(Crowd(ToolBudget(max), k), sys) && sys.shared.calls < max
    requires sys.pcs[i] == Using(FIRST, Calls(n), false)
    requires Leads(Crowd(ToolBudget(max), k), Fresh(k, 0), events, 0, sys)
    ensures var counted := sys.shared.(calls := sys.shared.calls + 1);
            Leads(Crowd(ToolBudget(max), k), Fresh(k, 0), longer, 0,
                  System(counted, sys.pcs[i := Running(FIRST, Calls(n), false)]))
  {
    hide Leads, Tally, Calls;
    var passed := Pass(max, k, events, sys, i, n);
    longer := Go(Crowd(ToolBudget(max), k), Fresh(k, 0), passed, 0,
                 System(sys.shared, sys.pcs[i := Passed(FIRST, Calls(n), false)]), i, Tick);
    Overwritten(sys.pcs, i, Passed(FIRST, Calls(n), false), Running(FIRST, Calls(n), false));
  }

  /** One tool call from the check to the gap it ends in. */
  lemma Spend(max: nat, k: nat, events: seq<Event>, sys: System, i: nat, n: nat)
    returns (longer: seq<Event>, now: System)
    requires i < k <= |DOMAINS| && n > 0 && Shaped(Crowd(ToolBudget(max), k), sys) && sys.shared.calls < max
    requires sys.pcs[i] == Using(FIRST, Calls(n), false)
    requires Leads(Crowd(ToolBudget(max), k), Fresh(k, 0), events, 0, sys)
    ensures Leads(Crowd(ToolBudget(max), k), Fresh(k, 0), longer, 0, now)
    ensures now.pcs == sys.pcs[i := Using(FIRST, Calls(n - 1), false)] && now.shared.calls == sys.shared.calls + 1
  {
    var c, start, todo := Crowd(ToolBudget(max), k), Fresh(k, 0), Calls(n);
    assert todo[1..] == Calls(n - 1);
    hide Leads, Tally, Calls;
    longer := Count(max, k, events, sys, i, n);
    var counted := sys.shared.(calls := sys.shared.calls + 1);
    longer := Go(c, start, longer, 0, System(counted, sys.pcs[i := Running(FIRST, todo, false)]), i,
                 Result(Refused("MAS-8002")));
    var owing := Owing("MAS-8002", ToTools(FIRST, todo[1..], false));
    Overwritten(sys.pcs, i, Running(FIRST, todo, false), owing);
    longer := Go(c, start, longer, 0, System(counted, sys.pcs[i := owing]), i, Tick);
    Overwritten(sys.pcs, i, owing, Using(FIRST, todo[1..], false));
    now := System(counted.WithGap("MAS-8002"), sys.pcs[i := Using(FIRST, todo[1..], false)]);
  }

  lemma Overwritten(pcs: seq<PC>, i: nat, was: PC, now: PC)
    requires i < |pcs|
    ensures pcs[i := was][i := now] == pcs[i := now]
  {
  }

  /** The first investigator spends all of the budget but `left` calls, and has those to make. */
  lemma {:induction false} SpendDown(max: nat, k: nat, left: nat) returns (events: seq<Event>, sys: System)
    requires 1 <= k <= |DOMAINS| && 1 <= left <= max
    ensures Leads(Crowd(ToolBudget(max), k), Fresh(k, 0), events, 0, sys)
    ensures sys.pcs == Fresh(k, 0).pcs[0 := Using(FIRST, Calls(left), false)] && sys.shared.calls == max - left
    decreases max - left
  {
    var c, start := Crowd(ToolBudget(max), k), Fresh(k, 0);
    if left == max {
      NoEvents(c, start, 0);
      hide Leads, Calls;
      var entered, there := Enter(ToolBudget(max), k, start, [], 0, start, 0);
      events, sys := AskForCalls(ToolBudget(max), k, entered, there, 0, max);
      Overwritten(start.pcs, 0, Awaiting(FIRST), Using(FIRST, Calls(left), false));
    } else {
      var before, there := SpendDown(max, k, left + 1);
      hide Leads, Calls;
      events, sys := Spend(max, k, before, there, 0, left + 1);
      Overwritten(start.pcs, 0, Using(FIRST, Calls(left + 1), false), Using(FIRST, Calls(left), false));
    }
  }

  /** With one call left in the budget, the first `i` investigators are past the check. */
  lemma {:induction false} Gather(max: nat, k: nat, i: nat) returns (events: seq<Event>, sys: System)
    requires 1 <= i <= k <= |DOMAINS| && 1 <= max
    ensures Leads(Crowd(ToolBudget(max), k), Fresh(k, 0), events, 0, sys)
    ensures |sys.pcs| == k && sys.shared.calls == max - 1
    ensures forall j :: 0 <= j < k ==> sys.pcs[j] == if j < i then Passed(FIRST, Calls(1), false) else Waiting
  {
    if i == 1 {
      var before, there := SpendDown(max, k, 1);
      hide Leads, Calls;
      events := Pass(max, k, before, there, 0, 1);
      sys := System(there.shared, there.pcs[0 := Passed(FIRST, Calls(1), false)]);
    } else {
      var before, there := Gather(max, k, i - 1);
      hide Leads, Calls;
      var entered, inside := Enter(ToolBudget(max), k, Fresh(k, 0), before, 0, there, i - 1);
      var asked, using := AskForCalls(ToolBudget(max), k, entered, inside, i - 1, 1);
      events := Pass(max, k, asked, using, i - 1, 1);
      sys := System(using.shared, using.pcs[i - 1 := Passed(FIRST, Calls(1), false)]);
    }
  }

  /** The first `j` of the crowd have been counted. */
  lemma {:induction false} CountAll(max: nat, k: nat, j: nat) returns (events: seq<Event>, sys: System)
    requires 1 <= k <= |DOMAINS| && 1 <= max && j <= k
    ensures Leads(Crowd(ToolBudget(max), k), Fresh(k, 0), events, 0, sys)
    ensures |sys.pcs| == k && sys.shared.calls == max - 1 + j
    ensures forall i :: j <= i < k ==> sys.pcs[i] == Passed(FIRST, Calls(1), false)
  {
    if j == 0 {
      events, sys := Gather(max, k, k);
    } else {
      var before, there := CountAll(max, k, j - 1);
      hide Leads, Tally;
      events := Go(Crowd(ToolBudget(max), k), Fresh(k, 0), before, 0, there, j - 1, Tick);
      sys := System(there.shared.(calls := there.shared.calls + 1),
                    there.pcs[j - 1 := Running(FIRST, Calls(1), false)]);
    }
  }

  /** For every budget of calls and every number of investigators, a schedule on which the bound on calls is reached. */
  lemma ToolBudgetIsOverrun(max: nat, k: nat) returns (events: seq<Event>)
    requires 1 <= max && 1 <= k <= |DOMAINS|
    ensures var c, start := Crowd(ToolBudget(max), k), Fresh(k, 0);
            && AtStart(c, start) && Legal(c, start, events)
            && Ran(c, start, events).shared.calls == max - 1 + Width(c)
  {
    CrowdWidth(ToolBudget(max), k);
    var sys;
    events, sys := CountAll(max, k, k);
  }
}
