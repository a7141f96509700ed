/** Whole runs of concurrent investigators: they end, they do not block each other, and their order does not show. */
module InvestigatorRuns {
  import opened GoStrings
  import opened Notes
  import opened Workspace
  import opened Investigators

  // --- every schedule ends -----------------------------------------------------------------

  /** How many more events an investigator can take part in, if its model asks for no further tool call. */
  function Fuel(pc: PC): (n: nat)
  {
    match pc
    case Waiting => 4 * MAX_TURNS + 4
    case Asking(t) => 4 * (MAX_TURNS - t.number) + 3
    case Awaiting(t) => 4 * (MAX_TURNS - t.number) + 2
    case Judging(t, reply) => 4 * (MAX_TURNS - t.number) + 4 * |reply.calls| + 1
    case Using(t, todo, _) => 4 * (MAX_TURNS - t.number) + 4 * |todo|
    case Passed(t, todo, _) => 4 * (MAX_TURNS - t.number) + 4 * |todo| - 1
    case Running(t, todo, _) => 4 * (MAX_TURNS - t.number) + 4 * |todo| - 2
    case Owing(_, ToNote(_)) => 3
    case Owing(_, ToTools(t, todo, _)) => 4 * (MAX_TURNS - t.number) + 4 * |todo| + 1
    case Noting(_) => 2
    case Leaving(_) => 1
    case Finished(_) => 0
  }

  function TotalFuel(pcs: seq<PC>): (n: nat)
  {
    if pcs == [] then 0 else TotalFuel(pcs[..|pcs| - 1]) + Fuel(pcs[|pcs| - 1])
  }

  /** Tool calls an event asks for. */
  function Demand(e: Event): (n: nat)
  {
    if e.input.Answer? then |e.input.reply.calls| else 0
  }

  function TotalDemand(events: seq<Event>): (n: nat)
  {
    if events == [] then 0 else TotalDemand(events[..|events| - 1]) + Demand(events[|events| - 1])
  }

  lemma {:induction false} FuelUpdate(pcs: seq<PC>, i: nat, pc: PC)
    requires i < |pcs|
    ensures TotalFuel(pcs[i := pc]) + Fuel(pcs[i]) == TotalFuel(pcs) + Fuel(pc)
  {
    hide Fuel;
    var init, last := pcs[..|pcs| - 1], |pcs| - 1;
    if i == last {
      assert pcs[i := pc][..last] == init;
    } else {
      FuelUpdate(init, i, pc);
      assert pcs[i := pc][..last] == init[i := pc];
    }
  }

  lemma {:induction false} FuelAtStart(pcs: seq<PC>)
    requires forall i :: 0 <= i < |pcs| ==> pcs[i] == Waiting
    ensures TotalFuel(pcs) == |pcs| * Fuel(Waiting)
  {
    if pcs != [] {
      FuelAtStart(pcs[..|pcs| - 1]);
    }
  }

  lemma AdvanceBurns(c: Setup, s: Shared, d: Domain, pc: PC, e: Event)
    requires Fits(pc, e.input)
    ensures Fuel(Advance(c, s, d, pc, e.input).1) < Fuel(pc) + 4 * Demand(e)
  {
    hide AfterConsume, Refusal, WithEvidence, Blank, FindingsNote, Noted;
  }

  lemma StepBurns(c: Setup, sys: System, e: Event)
    requires Enabled(c, sys, e)
    ensures Fuel(After(c, sys, e).pcs[e.who]) < Fuel(sys.pcs[e.who]) + 4 * Demand(e)
  {
    AdvanceBurns(c, sys.shared, c.domains[e.who], sys.pcs[e.who], e);
    hide Advance, Fuel, Tally;
  }

  lemma {:induction false} FuelBurns(c: Setup, start: System, events: seq<Event>)
    requires Legal(c, start, events)
    ensures |events| + TotalFuel(Ran(c, start, events).pcs) <= TotalFuel(start.pcs) + 4 * TotalDemand(events)
  {
    hide After, TotalFuel, Enabled;
    if events != [] {
      var init, last := events[..|events| - 1], events[|events| - 1];
      FuelBurns(c, start, init);
      var sys := Ran(c, start, init);
      StepBurns(c, sys, last);
      FuelAfter(c, sys, last);
    }
  }

  lemma FuelAfter(c: Setup, sys: System, e: Event)
    requires Enabled(c, sys, e)
    ensures TotalFuel(After(c, sys, e).pcs) + Fuel(sys.pcs[e.who])
         == TotalFuel(sys.pcs) + Fuel(After(c, sys, e).pcs[e.who])
  {
    hide Advance, Fuel;
    FuelUpdate(sys.pcs, e.who, After(c, sys, e).pcs[e.who]);
  }

  /** No schedule goes on for ever: 28 events an investigator, and four for every tool call asked for. */
  lemma SchedulesEnd(c: Setup, start: System, events: seq<Event>)
    requires AtStart(c, start) && Legal(c, start, events)
    ensures |events| <= 28 * |c.domains| + 4 * TotalDemand(events)
  {
    FuelAtStart(start.pcs);
    hide TotalFuel, Ran, Legal;
    FuelBurns(c, start, events);
  }

  // --- and none gets stuck before its end ---------------------------------------------------------

  /** Running investigators hold the slots that waiting ones need, so somebody can always go on. */
  lemma SomebodyCanGoOn(c: Setup, start: System, events: seq<Event>, late: bool, reply: Reply, result: ToolResult)
    returns (next: Event)
    requires AtStart(c, start) && Legal(c, start, events) && !AllDone(Ran(c, start, events))
    ensures Legal(c, start, events + [next])
    ensures next.input in {Tick, Clock(late), Answer(reply), Result(result)}
  {
    var sys := Ran(c, start, events);
    QueuesHold(c, start, events);
    if Tally(sys.pcs, Holds) > 0 {
      var i := TallySome(sys.pcs, Holds);
      next := Event(i, InputFor(sys.pcs[i], late, reply, result));
    } else {
      var i :| 0 <= i < |sys.pcs| && !sys.pcs[i].Finished?;
      assert !Holds(sys.pcs[i]) by {
        if Holds(sys.pcs[i]) {
          TallyNone(sys.pcs, pc => false);
          TallyApart(sys.pcs, pc => false, Holds, i);
        }
      }
      next := Event(i, Tick);
    }
    assert (events + [next])[..|events|] == events;
  }

  function InputFor(pc: PC, late: bool, reply: Reply, result: ToolResult): (r: Input)
  {
    match pc
    case Asking(_) => Clock(late)
    case Awaiting(_) => Answer(reply)
    case Running(_, _, _) => Result(result)
    case _ => Tick
  }

  /** An investigator past the budget check has a call to make. */
  predicate HasCall(pc: PC)
  {
    (pc.Passed? || pc.Running?) ==> pc.todo != []
  }

  lemma {:induction false} QueuesHold(c: Setup, start: System, events: seq<Event>)
    requires AtStart(c, start) && Legal(c, start, events)
    ensures Shaped(c, Ran(c, start, events))
    ensures forall i :: 0 <= i < |c.domains| ==> HasCall(Ran(c, start, events).pcs[i])
  {
    if events != [] {
      var init, last := events[..|events| - 1], events[|events| - 1];
      QueuesHold(c, start, init);
      StepHasCall(c, Ran(c, start, init), last);
    }
  }

  lemma StepHasCall(c: Setup, sys: System, e: Event)
    requires Enabled(c, sys, e)
    ensures HasCall(After(c, sys, e).pcs[e.who])
  {
    hide Tally, Limit, WithEvidence, Blank, FindingsNote;
  }

  // --- the order of finishing does not show ----------------------------------------------------------

  /** The notes of the investigators that have written theirs, in the order of their domains. */
  function Said(domains: seq<Domain>, pcs: seq<PC>): (out: seq<string>)
    requires |pcs| == |domains|
  {
    if pcs == [] then []
    else Said(domains[..|pcs| - 1], pcs[..|pcs| - 1]) + SaidBy(domains[|pcs| - 1], pcs[|pcs| - 1])
  }

  function SaidBy(d: Domain, pc: PC): (out: seq<string>)
  {
    if (pc.Leaving? || pc.Finished?) && !Blank(pc.text) then [FindingsNote(d, pc.text)] else []
  }

  lemma SwapOut(a: multiset<string>, b: multiset<string>, x: multiset<string>, y: multiset<string>, same: multiset<string>)
    requires a + x == b + y
    ensures a + same + x == b + same + y
  {
    assert a + same + x == (a + x) + same;
    assert b + same + y == (b + y) + same;
  }

  lemma Cancel(a: multiset<string>, b: multiset<string>, x: multiset<string>)
    requires a + x == b + x
    ensures a == b
  {
    forall n ensures a[n] == b[n] {
      assert (a + x)[n] == (b + x)[n];
    }
  }

  lemma {:induction false} SaidUpdate(domains: seq<Domain>, pcs: seq<PC>, i: nat, pc: PC)
    requires |pcs| == |domains| && i < |pcs|
    ensures multiset(Said(domains, pcs[i := pc])) + multiset(SaidBy(domains[i], pcs[i]))
         == multiset(Said(domains, pcs)) + multiset(SaidBy(domains[i], pc))
  {
    hide SaidBy;
    var n := |pcs| - 1;
    if i == n {
      assert pcs[i := pc][..n] == pcs[..n];
    } else {
      SaidUpdate(domains[..n], pcs[..n], i, pc);
      var updated := pcs[i := pc];
      assert updated[..n] == pcs[..n][i := pc];
      var same := multiset(SaidBy(domains[n], pcs[n]));
      assert multiset(Said(domains, updated)) == multiset(Said(domains[..n], updated[..n])) + same;
      assert multiset(Said(domains, pcs)) == multiset(Said(domains[..n], pcs[..n])) + same;
      SwapOut(multiset(Said(domains[..n], updated[..n])), multiset(Said(domains[..n], pcs[..n])),
              multiset(SaidBy(domains[i], pcs[i])), multiset(SaidBy(domains[i], pc)), same);
    }
  }

  /** Every note said comes from an investigator. */
  lemma {:induction false} SaidFrom(domains: seq<Domain>, pcs: seq<PC>, note: string) returns (i: nat)
    requires |pcs| == |domains| && note in Said(domains, pcs)
    ensures i < |pcs| && note in SaidBy(domains[i], pcs[i])
  {
    hide SaidBy;
    var n := |pcs| - 1;
    if note in SaidBy(domains[n], pcs[n]) {
      i := n;
    } else {
      i := SaidFrom(domains[..n], pcs[..n], note);
    }
  }

  lemma {:induction false} SaidNothing(domains: seq<Domain>, pcs: seq<PC>)
    requires |pcs| == |domains| && forall i :: 0 <= i < |pcs| ==> pcs[i] == Waiting
    ensures Said(domains, pcs) == []
  {
    if pcs != [] {
      SaidNothing(domains[..|pcs| - 1], pcs[..|pcs| - 1]);
    }
  }

  /** `added` holds exactly the notes said so far, in some order, at most one for each prefix. */
  ghost predicate Heard(c: Setup, before: seq<string>, sys: System, added: seq<string>)
  {
    && Shaped(c, sys)
    && sys.shared.notes == before + added
    && multiset(added) == multiset(Said(c.domains, sys.pcs))
    && OnePerRank(added, NoteOrder(c.domains))
  }

  /** A step leaves the notes alone, or it is the one that adds an investigator's own. */
  lemma NotesMove(c: Setup, sys: System, e: Event)
    requires Enabled(c, sys, e)
    ensures var next := After(c, sys, e);
            var d, was, now := c.domains[e.who], sys.pcs[e.who], next.pcs[e.who];
            next.shared.notes == sys.shared.notes + (if was.Noting? then SaidBy(d, now) else [])
            && (was.Noting? ==> SaidBy(d, was) == [])
            && (!was.Noting? ==> SaidBy(d, now) == SaidBy(d, was))
  {
    hide Tally, Limit, WithEvidence, Blank, FindingsNote;
  }

  lemma NewRank(c: Setup, sys: System, i: nat, text: string, n: string)
    requires Shaped(c, sys) && DistinctDomains(c.domains) && i < |sys.pcs| && SaidBy(c.domains[i], sys.pcs[i]) == []
    requires n in Said(c.domains, sys.pcs)
    ensures RankOf(NoteOrder(c.domains), n) != RankOf(NoteOrder(c.domains), FindingsNote(c.domains[i], text))
  {
    hide FindingsNote, NoteOrder, RankOf, Said;
    var j := SaidFrom(c.domains, sys.pcs, n);
    FindingsRank(c.domains, i, text);
    FindingsRank(c.domains, j, sys.pcs[j].text);
  }

  lemma OneMoreRank(added: seq<string>, note: string, prefixes: seq<string>)
    requires OnePerRank(added, prefixes)
    requires forall n :: n in added ==> RankOf(prefixes, n) != RankOf(prefixes, note)
    ensures OnePerRank(added + [note], prefixes)
  {
    hide RankOf;
  }

  lemma HeardSame(c: Setup, before: seq<string>, sys: System, added: seq<string>, e: Event)
    requires Enabled(c, sys, e) && Heard(c, before, sys, added) && !sys.pcs[e.who].Noting?
    ensures Heard(c, before, After(c, sys, e), added)
  {
    hide Said, After, OnePerRank, NoteOrder, SaidBy;
    var next := After(c, sys, e);
    NotesMove(c, sys, e);
    AfterUpdates(c, sys, e);
    SaidUpdate(c.domains, sys.pcs, e.who, next.pcs[e.who]);
    assert sys.shared.notes + [] == sys.shared.notes;
    Cancel(multiset(Said(c.domains, next.pcs)), multiset(Said(c.domains, sys.pcs)),
           multiset(SaidBy(c.domains[e.who], next.pcs[e.who])));
  }

  lemma HeardMore(c: Setup, before: seq<string>, sys: System, added: seq<string>, e: Event)
    requires DistinctDomains(c.domains) && Enabled(c, sys, e) && Heard(c, before, sys, added) && sys.pcs[e.who].Noting?
    ensures Heard(c, before, After(c, sys, e), added + SaidBy(c.domains[e.who], After(c, sys, e).pcs[e.who]))
  {
    hide Said, After, OnePerRank, NoteOrder, SaidBy;
    var next := After(c, sys, e);
    var more := SaidBy(c.domains[e.who], next.pcs[e.who]);
    NotesMove(c, sys, e);
    AfterUpdates(c, sys, e);
    SaidUpdate(c.domains, sys.pcs, e.who, next.pcs[e.who]);
    MoreRanks(c, sys, e.who, added, next.pcs[e.who]);
    assert before + added + more == before + (added + more);
  }

  lemma MoreRanks(c: Setup, sys: System, i: nat, added: seq<string>, pc: PC)
    requires Shaped(c, sys) && DistinctDomains(c.domains) && i < |sys.pcs| && SaidBy(c.domains[i], sys.pcs[i]) == []
    requires multiset(added) == multiset(Said(c.domains, sys.pcs)) && OnePerRank(added, NoteOrder(c.domains))
    ensures OnePerRank(added + SaidBy(c.domains[i], pc), NoteOrder(c.domains))
  {
    hide Said, OnePerRank, NoteOrder, FindingsNote, RankOf;
    var more := SaidBy(c.domains[i], pc);
    if more == [] {
      assert added + more == added;
    } else {
      forall n | n in added
        ensures RankOf(NoteOrder(c.domains), n) != RankOf(NoteOrder(c.domains), more[0])
      {
        assert n in multiset(added);
        NewRank(c, sys, i, pc.text, n);
      }
      OneMoreRank(added, more[0], NoteOrder(c.domains));
      assert more == [more[0]];
    }
  }

  lemma AfterUpdates(c: Setup, sys: System, e: Event)
    requires Enabled(c, sys, e)
    ensures After(c, sys, e).pcs == sys.pcs[e.who := After(c, sys, e).pcs[e.who]]
  {
    hide Advance;
  }

  lemma {:induction false} HeardAlways(c: Setup, start: System, events: seq<Event>) returns (added: seq<string>)
    requires AtStart(c, start) && DistinctDomains(c.domains) && Legal(c, start, events)
    ensures Heard(c, start.shared.notes, Ran(c, start, events), added)
  {
    hide After, NoteOrder, RankOf;
    if events == [] {
      SaidNothing(c.domains, start.pcs);
      added := [];
      assert start.shared.notes + [] == start.shared.notes;
    } else {
      var init, last := events[..|events| - 1], events[|events| - 1];
      added := HeardAlways(c, start, init);
      var sys := Ran(c, start, init);
      if sys.pcs[last.who].Noting? {
        HeardMore(c, start.shared.notes, sys, added, last);
        added := added + SaidBy(c.domains[last.who], After(c, sys, last).pcs[last.who]);
      } else {
        HeardSame(c, start.shared.notes, sys, added, last);
      }
    }
  }

  lemma {:induction false} SaidRanks(domains: seq<Domain>, pcs: seq<PC>, all: seq<Domain>)
    requires |pcs| == |domains| && domains <= all && DistinctDomains(all)
    ensures OnePerRank(Said(domains, pcs), NoteOrder(all))
  {
    hide NoteOrder, RankOf, FindingsNote;
    if pcs != [] {
      var n := |pcs| - 1;
      var init := Said(domains[..n], pcs[..n]);
      SaidRanks(domains[..n], pcs[..n], all);
      var here := SaidBy(domains[n], pcs[n]);
      if here == [] {
        assert init + here == init;
      } else {
        forall note | note in init ensures RankOf(NoteOrder(all), note) != RankOf(NoteOrder(all), here[0]) {
          var j := SaidFrom(domains[..n], pcs[..n], note);
          assert domains[j] == all[j] && domains[n] == all[n];
          FindingsRank(all, j, pcs[j].text);
          FindingsRank(all, n, pcs[n].text);
        }
        OneMoreRank(init, here[0], NoteOrder(all));
        assert init + here == init + [here[0]];
      }
    }
  }

  /**
   * At any point of any schedule, sorting the notes gives what sorting them in the order of the domains
   * gives: what an investigator says shows, when it says it does not.
   */
  lemma ScheduleDoesNotShow(c: Setup, start: System, events: seq<Event>)
    requires AtStart(c, start) && DistinctDomains(c.domains) && Legal(c, start, events)
    ensures var sys := Ran(c, start, events);
            Shaped(c, sys) && SortedNotes(sys.shared.notes, NoteOrder(c.domains))
                           == SortedNotes(start.shared.notes + Said(c.domains, sys.pcs), NoteOrder(c.domains))
  {
    hide SortedNotes, Said, NoteOrder, RankOf, Ran, Legal;
    var added := HeardAlways(c, start, events);
    var sys := Ran(c, start, events);
    SaidRanks(c.domains, sys.pcs, c.domains);
    ArrivalOrderIsLost(start.shared.notes, added, Said(c.domains, sys.pcs), NoteOrder(c.domains));
  }
}
