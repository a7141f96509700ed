/** The other side of the budgets: nobody is stopped by a budget that is not spent. */
module BudgetCuts {
  import opened Basics
  import opened Investigators
  import opened Notes

  /** Nothing but the budget check itself reports MAS-3007. */
  predicate Unrelated(e: Event)
  {
    match e.input
    case Answer(reply) => reply.failed != Some("MAS-3007")
    case Result(result) => result.Data? || result.code != "MAS-3007"
    case _ => true
  }

  predicate UnrelatedReply(pc: PC)
  {
    pc.Judging? ==> pc.reply.failed != Some("MAS-3007")
  }

  predicate CallsSpent(b: Budget, s: Shared)
  {
    b.maxToolCalls > 0 && s.calls >= b.maxToolCalls
  }

  /** The reason that is kept is one that has come to pass. */
  predicate Justified(b: Budget, s: Shared)
  {
    match s.reason
    case Unspent => !s.truncated
    case WallClock => b.timed
    case StepsSpent => b.maxSteps > 0 && s.steps >= b.maxSteps
    case TokensSpent => b.maxTokens > 0 && s.tokens >= b.maxTokens
  }

  /** Who refuses a tool call, or is about to say so, does it for a spent budget. */
  predicate CallsJustified(b: Budget, start: Shared, sys: System)
  {
    && |start.gaps| <= |sys.shared.gaps|
    && ("MAS-3007" in sys.shared.gaps[|start.gaps|..] ==> CallsSpent(b, sys.shared))
    && forall i :: 0 <= i < |sys.pcs| ==>
         UnrelatedReply(sys.pcs[i])
         && (sys.pcs[i].Owing? && sys.pcs[i].code == "MAS-3007" ==> CallsSpent(b, sys.shared))
  }

  lemma ReasonStep(c: Setup, sys: System, e: Event)
    requires Enabled(c, sys, e) && Justified(c.budget, sys.shared)
    ensures Justified(c.budget, After(c, sys, e).shared)
  {
    hide Tally;
  }

  /** What one step may do to all this. */
  ghost predicate CallsStep(b: Budget, was: Shared, now: Shared, to: PC)
  {
    && was.calls <= now.calls && UnrelatedReply(to)
    && (to.Owing? && to.code == "MAS-3007" ==> CallsSpent(b, now))
    && (now.gaps == was.gaps || exists code :: now.gaps == was.gaps + [code] && (code == "MAS-3007" ==> CallsSpent(b, now)))
  }

  lemma JudgedStep(b: Budget, s: Shared, t: Turn, r: Reply)
    requires r.failed != Some("MAS-3007")
    ensures var to := Judged(t, r); UnrelatedReply(to) && !(to.Owing? && to.code == "MAS-3007")
  {
  }

  lemma UsedStep(c: Setup, s: Shared, t: Turn, todo: seq<string>, usable: bool)
    ensures var to := Used(c, s, t, todo, usable);
            UnrelatedReply(to) && (to.Owing? && to.code == "MAS-3007" ==> CallsSpent(c.budget, s))
  {
  }

  lemma StepOfCalls(c: Setup, sys: System, e: Event)
    requires Enabled(c, sys, e) && Unrelated(e) && UnrelatedReply(sys.pcs[e.who])
    requires sys.pcs[e.who].Owing? && sys.pcs[e.who].code == "MAS-3007" ==> CallsSpent(c.budget, sys.shared)
    ensures CallsStep(c.budget, sys.shared, After(c, sys, e).shared, After(c, sys, e).pcs[e.who])
  {
    hide Tally, Judged, Used, Limit;
    var s, pc := sys.shared, sys.pcs[e.who];
    match pc {
      case Judging(t, reply) => JudgedStep(c.budget, s, t, reply);
      case Using(t, todo, usable) => UsedStep(c, s, t, todo, usable);
      case Owing(code, onward) => assert After(c, sys, e).shared.gaps == s.gaps + [code];
      case _ =>
    }
  }

  lemma CallsStayJustified(c: Setup, start: Shared, sys: System, e: Event)
    requires Enabled(c, sys, e) && Unrelated(e) && CallsJustified(c.budget, start, sys)
    ensures CallsJustified(c.budget, start, After(c, sys, e))
  {
    hide Tally, Limit, Advance;
    StepOfCalls(c, sys, e);
    var now := After(c, sys, e);
    assert forall i :: 0 <= i < |sys.pcs| && i != e.who ==> now.pcs[i] == sys.pcs[i];
    var n := |start.gaps|;
    if now.shared.gaps != sys.shared.gaps {
      var code :| now.shared.gaps == sys.shared.gaps + [code] && (code == "MAS-3007" ==> CallsSpent(c.budget, now.shared));
      assert now.shared.gaps[n..] == sys.shared.gaps[n..] + [code];
    }
  }

  /**
   * Over every schedule: the run is flagged as cut only for a budget that is spent, for the very reason that is
   * kept, and a tool call is refused for the budget only when that many calls have been made.
   */
  lemma {:induction false} CutsAreJustified(c: Setup, start: System, events: seq<Event>)
    requires AtStart(c, start) && Legal(c, start, events) && Justified(c.budget, start.shared)
    requires forall i :: 0 <= i < |events| ==> Unrelated(events[i])
    ensures Justified(c.budget, Ran(c, start, events).shared)
    ensures CallsJustified(c.budget, start.shared, Ran(c, start, events))
  {
    hide Tally, After, Justified, CallsJustified;
    if events == [] {
      StartIsJustified(c, start);
    } else {
      var init, last := events[..|events| - 1], events[|events| - 1];
      CutsAreJustified(c, start, init);
      ReasonStep(c, Ran(c, start, init), last);
      CallsStayJustified(c, start.shared, Ran(c, start, init), last);
    }
  }

  lemma StartIsJustified(c: Setup, start: System)
    requires AtStart(c, start)
    ensures CallsJustified(c.budget, start.shared, start)
  {
    assert start.shared.gaps[|start.shared.gaps|..] == [];
  }

  // --- repairs ------------------------------------------------------------------------------------

  /** The turn an investigator is in, if it is in one. */
  function TurnOf(pc: PC): (t: Option<Turn>)
  {
    match pc
    case Asking(t) => Some(t)
    case Awaiting(t) => Some(t)
    case Judging(t, _) => Some(t)
    case Using(t, _, _) => Some(t)
    case Passed(t, _, _) => Some(t)
    case Running(t, _, _) => Some(t)
    case Owing(_, onward) => if onward.ToTools? then Some(onward.t) else None
    case _ => None
  }

  /** It is about to record that a call was malformed, or named no tool there is. */
  predicate OwesRepair(pc: PC)
  {
    pc.Owing? && pc.onward.ToTools? && pc.code in {"MAS-8005", "MAS-8006"}
  }

  /** How many calls of this investigator came to that. */
  function Malformed(c: Setup, start: System, events: seq<Event>, who: nat): (n: nat)
    requires Legal(c, start, events)
    decreases |events|
  {
    if events == [] then 0
    else
      var init := events[..|events| - 1];
      Malformed(c, start, init, who)
      + (if events[|events| - 1].who == who && OwesRepair(Ran(c, start, events).pcs[who]) then 1 else 0)
  }

  predicate Repairs(pc: PC, n: nat)
  {
    && (pc.Waiting? ==> n == 0)
    && (TurnOf(pc).Some? ==> TurnOf(pc).value.repairs == n)
  }

  lemma RepairStep(c: Setup, s: Shared, d: Domain, pc: PC, input: Input, n: nat)
    requires Fits(pc, input) && Repairs(pc, n)
    ensures var to := Advance(c, s, d, pc, input).1; Repairs(to, if OwesRepair(to) then n + 1 else n)
  {
    match pc {
      case Judging(t, reply) => hide Used, Returned;
      case Using(t, todo, usable) => hide Judged, Returned;
      case _ => hide Judged, Used;
    }
  }

  /** The repairs an investigator has on its account are its malformed calls, over every schedule. */
  lemma {:induction false} RepairsAreMalformedCalls(c: Setup, start: System, events: seq<Event>, who: nat)
    requires AtStart(c, start) && Legal(c, start, events) && who < |c.domains|
    ensures Repairs(Ran(c, start, events).pcs[who], Malformed(c, start, events, who))
  {
    hide Tally, Advance, OwesRepair, Repairs;
    if events == [] {
      NobodyRepairs();
    } else {
      var init, last := events[..|events| - 1], events[|events| - 1];
      RepairsAreMalformedCalls(c, start, init, who);
      var sys := Ran(c, start, init);
      if last.who == who {
        RepairStep(c, sys.shared, c.domains[who], sys.pcs[who], last.input, Malformed(c, start, init, who));
      }
    }
  }

  /** An investigator gives up on its tools after a turn without a usable call, from the third malformed one on. */
  lemma GivesUpAfterThree(c: Setup, s: Shared, t: Turn, usable: bool)
    ensures Used(c, s, t, [], usable) == Owing("MAS-2004", ToNote(t.text)) <==> !usable && t.repairs >= 3
  {
  }

  lemma NobodyRepairs()
    ensures Repairs(Waiting, 0)
  {
  }
}
