/** When the cap on rounds makes a difference: exactly when the last replies leave something to assess or to report. */
module RoundCap {
  import opened GoStrings
  import opened Notes
  import opened Workspace
  import opened Blackboard
  import opened BlackboardRuns
  import opened Critique

  // --- hypotheses have ids of their own ----------------------------------------------------

  /** The run has numbered its hypotheses in order, from `first` on. */
  ghost predicate Numbered(b: Board, first: nat)
  {
    && b.hypSeq == first + |b.hypotheses|
    && forall i :: 0 <= i < |b.hypotheses| ==> b.hypotheses[i].id == "h-" + Itoa(first + i + 1)
  }

  lemma NumbersAreDistinct(b: Board, first: nat)
    requires Numbered(b, first)
    ensures Distinct(b.hypotheses)
  {
    forall i, j | 0 <= i < j < |b.hypotheses| ensures b.hypotheses[i].id != b.hypotheses[j].id {
      var x, y := Itoa(first + i + 1), Itoa(first + j + 1);
      assert Decimal(x) == first + i + 1 && Decimal(y) == first + j + 1;
      assert ("h-" + x)[2..] == x && ("h-" + y)[2..] == y;
    }
  }

  lemma {:induction false} ProposalsAreNumbered(b: Board, list: seq<Proposal>, first: nat)
    requires Numbered(b, first)
    ensures Numbered(WithAllProposals(b, list), first)
  {
    hide Resolved, KnownRefs, AllResolve, Itoa, Blank;
    if list != [] {
      ProposalsAreNumbered(b, list[..|list| - 1], first);
    }
  }

  lemma ContributedIsNumbered(team: Team, round: nat, role: Role, k: Control, first: nat)
    requires OnlyInvestigatorsGather(team) && Numbered(k.board, first)
    ensures Numbered(Contributed(team, round, role, k).board, first)
  {
    hide WithAllProposals, WithAllAssessments, WithAllAdvice, Investigated, SortedNotes, Blank, Itoa, PlanNote, PendingCount;
    var c := team.world(round, role, 0);
    match role {
      case Planner =>
      case Investigators => InvestigatorsEffect(team, round, k);
      case Correlator =>
        if c.proposals.Some? {
          ProposalsAreNumbered(AfterLoop(k.board, c), c.proposals.value, first);
        }
      case Critic =>
        if c.assessments.Some? {
          AssessmentsKeepIds(k.board.hypotheses, c.assessments.value);
        }
      case Reporter => ReporterEffect(k.board, c);
    }
  }

  lemma {:induction false} RoundIsNumbered(team: Team, round: nat, k: Control, n: nat, first: nat)
    requires OnlyInvestigatorsGather(team) && Numbered(k.board, first) && n <= |CONTRIBUTORS|
    ensures Numbered(RoundUpTo(team, round, k, n).board, first)
  {
    hide Contributed, Numbered, Observed, Eligible, OnlyInvestigatorsGather;
    if n > 0 {
      RoundIsNumbered(team, round, k, n - 1, first);
      ContributedIsNumbered(team, round, CONTRIBUTORS[n - 1], RoundUpTo(team, round, k, n - 1), first);
    }
  }

  // --- what a critic's reply leaves open -----------------------------------------------------

  lemma {:induction false} AllAssessed(hypotheses: seq<Hypothesis>)
    ensures AssessedCount(hypotheses) < |hypotheses| <==> exists i :: 0 <= i < |hypotheses| && hypotheses[i].status == PROPOSED
  {
    if hypotheses != [] {
      var init := hypotheses[..|hypotheses| - 1];
      AllAssessed(init);
      if i :| 0 <= i < |init| && init[i].status == PROPOSED {
        assert hypotheses[i].status == PROPOSED;
      }
    }
  }

  // --- the runs that the cap cuts ----------------------------------------------------------------

  /** The control state `n` rounds on. */
  function After(team: Team, round: nat, k: Control, n: nat): (k': Control)
    decreases n
  {
    if n == 0 then k else After(team, round + 1, AfterRound(team, round, k), n - 1)
  }

  /** None of the next `n` rounds ends the loop: each changes something, and no budget cuts it. */
  ghost predicate AllGoOn(team: Team, round: nat, k: Control, n: nat)
    decreases n
  {
    n == 0 || (GoesOn(team, round, k) && AllGoOn(team, round + 1, AfterRound(team, round, k), n - 1))
  }

  ghost predicate GoesOn(team: Team, round: nat, k: Control)
  {
    var k' := AfterRound(team, round, k);
    Changed(Observed(team, k), Observed(team, k')) && !k'.board.truncated
  }

  ghost predicate Unjudged(hypotheses: seq<Hypothesis>, critique: Call)
  {
    exists i :: 0 <= i < |hypotheses| && hypotheses[i].status == PROPOSED
      && !(critique.assessments.Some? && Judges(critique.assessments.value, hypotheses[i].id))
  }

  /** Of what the critic and the reporter are shown, their replies leave a hypothesis unjudged or the summary unsaid. */
  ghost predicate LeftOpen(b: Board, critique: Call, report: Call)
  {
    Unjudged(b.hypotheses, critique) || (Blank(b.summary) && !Summarizes(report))
  }

  lemma IdleRound(team: Team, round: nat, k: Control)
    requires NobodyEligible(Observed(team, k))
    ensures AfterRound(team, round, k) == k && !GoesOn(team, round, k)
  {
    hide Observed, Eligible, Contributed, RoundUpTo, AfterRound;
    RoundUnrolled(team, round, k);
    assert !Eligible(CONTRIBUTORS[0], Observed(team, k)) && !Eligible(CONTRIBUTORS[1], Observed(team, k));
    assert !Eligible(CONTRIBUTORS[2], Observed(team, k)) && !Eligible(CONTRIBUTORS[3], Observed(team, k));
    assert !Eligible(CONTRIBUTORS[4], Observed(team, k));
  }

  /** Capped and uncapped runs differ exactly when every round allowed went on and someone is eligible after the last. */
  lemma {:induction false} CapCutsTheEager(team: Team, round: nat, k: Control)
    requires OnlyInvestigatorsGather(team) && round <= MAX_ROUNDS
    ensures LoopFrom(team, round, k) != WithoutCap(team, round, k)
       <==> AllGoOn(team, round, k, MAX_ROUNDS - round)
            && !NobodyEligible(Observed(team, After(team, round, k, MAX_ROUNDS - round)))
    decreases MAX_ROUNDS - round
  {
    hide AfterRound, Observed, NobodyEligible, Changed, OnlyInvestigatorsGather;
    if round == MAX_ROUNDS {
      LoopEnds(team, k);
    } else {
      LoopUnfolds(team, round, k);
      CapCutsTheEager(team, round + 1, AfterRound(team, round, k));
      if NobodyEligible(Observed(team, k)) {
        IdleRound(team, round, k);
      }
    }
  }

  lemma AfterRoundIsNumbered(team: Team, round: nat, k: Control, first: nat)
    requires OnlyInvestigatorsGather(team) && Numbered(k.board, first)
    ensures Numbered(AfterRound(team, round, k).board, first)
  {
    hide RoundUpTo, Numbered;
    RoundIsNumbered(team, round, k, |CONTRIBUTORS|, first);
  }

  /** Where the last of `n` rounds begins. */
  lemma {:induction false} LastOfRounds(team: Team, round: nat, k: Control, n: nat, first: nat)
    requires OnlyInvestigatorsGather(team) && round + n + 1 == MAX_ROUNDS
    requires Phase(team, round, k) && Numbered(k.board, first) && AllGoOn(team, round, k, n + 1)
    ensures var k' := After(team, round, k, n);
            && GoesOn(team, round + n, k') && After(team, round, k, n + 1) == AfterRound(team, round + n, k')
            && Phase(team, round + n, k') && Numbered(k'.board, first)
    decreases n
  {
    hide AfterRound, Phase, Numbered, OnlyInvestigatorsGather, Observed;
    var next := AfterRound(team, round, k);
    assert After(team, round, k, n + 1) == After(team, round + 1, next, n);
    if n > 0 {
      assert AllGoOn(team, round + 1, next, n);
      PhaseAdvances(team, round, k);
      AfterRoundIsNumbered(team, round, k, first);
      LastOfRounds(team, round + 1, next, n - 1, first);
    }
  }

  /** The critic's turn leaves an unassessed hypothesis exactly when its reply, asked for or not, judges not all of them. */
  lemma CriticLeaves(hypotheses: seq<Hypothesis>, c: Call, after: seq<Hypothesis>)
    requires Distinct(hypotheses)
    requires || (AssessedCount(hypotheses) == |hypotheses| && after == hypotheses)
             || after == (if c.assessments.None? then hypotheses else WithAllAssessments(hypotheses, c.assessments.value))
    ensures AssessedCount(after) < |after| <==> Unjudged(hypotheses, c)
  {
    hide Distinct, Judges, AssessedCount, WithAllAssessments;
    AllAssessed(hypotheses);
    AllAssessed(after);
    if c.assessments.Some? {
      AssessmentsKeepIds(hypotheses, c.assessments.value);
      forall i | 0 <= i < |hypotheses|
        ensures WithAllAssessments(hypotheses, c.assessments.value)[i].status == PROPOSED
           <==> hypotheses[i].status == PROPOSED && !Judges(c.assessments.value, hypotheses[i].id)
      {
        StaysProposed(hypotheses, c.assessments.value, i);
      }
    }
  }

  /** In the last round allowed only the critic and the reporter can be asked. */
  lemma LastRoundIsTheirs(team: Team, k: Control)
    requires OnlyInvestigatorsGather(team) && Phase(team, MAX_ROUNDS - 1, k) && GoesOn(team, MAX_ROUNDS - 1, k)
    ensures var s := Observed(team, k);
            && k.board.hypotheses != [] && Settled(team, k)
            && AfterRound(team, MAX_ROUNDS - 1, k)
               == Turn(team, MAX_ROUNDS - 1, Reporter, s, Turn(team, MAX_ROUNDS - 1, Critic, s, k))
  {
    hide AfterRound, PendingCount, AssessedCount, EvidenceDigest, Blank, OnlyInvestigatorsGather, Contributed;
    RoundUnrolled(team, MAX_ROUNDS - 1, k);
  }

  lemma OpenWhenSettled(team: Team, k: Control)
    requires Settled(team, k) && k.board.hypotheses != []
    ensures !NobodyEligible(Observed(team, k))
       <==> AssessedCount(k.board.hypotheses) < |k.board.hypotheses| || Blank(k.board.summary)
  {
    hide AssessedCount, PendingCount, EvidenceDigest, Blank;
    assert CONTRIBUTORS[3] == Critic && CONTRIBUTORS[4] == Reporter;
  }

  /** All that the two turns keep, and what each leaves. */
  lemma CriticTurn(team: Team, round: nat, s: Sight, k: Control)
    requires OnlyInvestigatorsGather(team) && Distinct(k.board.hypotheses) && Settled(team, k) && s == Observed(team, k)
    ensures var k', c := Turn(team, round, Critic, s, k), team.world(round, Critic, 0);
            && Settled(team, k') && |k'.board.hypotheses| == |k.board.hypotheses| && k'.board.summary == k.board.summary
            && (AssessedCount(k'.board.hypotheses) < |k'.board.hypotheses| <==> Unjudged(k.board.hypotheses, c))
  {
    var k', c := Turn(team, round, Critic, s, k), team.world(round, Critic, 0);
    hide AssessedCount, PendingCount, EvidenceDigest, Blank, WithAllAssessments, Distinct, Unjudged;
    CriticEffect(k.board, c);
    CriticLeaves(k.board.hypotheses, c, k'.board.hypotheses);
  }

  lemma ReporterTurn(team: Team, round: nat, s: Sight, k: Control)
    requires OnlyInvestigatorsGather(team) && Settled(team, k) && s.hypotheses > 0 && s.summary == !Blank(k.board.summary)
    ensures var k' := Turn(team, round, Reporter, s, k);
            && Settled(team, k') && k'.board.hypotheses == k.board.hypotheses
            && (Blank(k'.board.summary) <==> Blank(k.board.summary) && !Summarizes(team.world(round, Reporter, 0)))
  {
    hide AfterReporter, PendingCount, EvidenceDigest, Blank, Summarizes;
    ReporterEffect(k.board, team.world(round, Reporter, 0));
  }

  lemma ClosingRound(team: Team, k: Control)
    requires OnlyInvestigatorsGather(team) && Phase(team, MAX_ROUNDS - 1, k) && GoesOn(team, MAX_ROUNDS - 1, k)
    requires Distinct(k.board.hypotheses)
    ensures !NobodyEligible(Observed(team, AfterRound(team, MAX_ROUNDS - 1, k)))
       <==> LeftOpen(k.board, team.world(MAX_ROUNDS - 1, Critic, 0), team.world(MAX_ROUNDS - 1, Reporter, 0))
  {
    var round := MAX_ROUNDS - 1;
    var s := Observed(team, k);
    LastRoundIsTheirs(team, k);
    var k4 := Turn(team, round, Critic, s, k);
    hide Turn, AfterRound, AssessedCount, PendingCount, EvidenceDigest, Blank, GoesOn, Phase, Distinct, Unjudged,
         Summarizes, NobodyEligible, Settled;
    CriticTurn(team, round, s, k);
    ReporterTurn(team, round, s, k4);
    OpenWhenSettled(team, Turn(team, round, Reporter, s, k4));
  }

  /**
   * When the cap makes a difference to a run that starts clean: exactly when none of the rounds allowed ends the
   * loop and the last replies of the critic and the reporter leave a hypothesis unjudged or the summary unsaid.
   */
  lemma CapCutsExactly(team: Team, b: Board)
    requires OnlyInvestigatorsGather(team)
    requires b.notes == [] && b.hypotheses == [] && Blank(b.summary)
    ensures var start, last := Control(b, {}, "", []), MAX_ROUNDS - 1;
            (LoopFrom(team, 0, start) != WithoutCap(team, 0, start)
             <==> AllGoOn(team, 0, start, MAX_ROUNDS)
                  && LeftOpen(After(team, 0, start, last).board, team.world(last, Critic, 0), team.world(last, Reporter, 0)))
  {
    hide AfterRound, Observed, NobodyEligible, OnlyInvestigatorsGather, LeftOpen, GoesOn, AllGoOn, After;
    var start, last: nat := Control(b, {}, "", []), MAX_ROUNDS - 1;
    CapCutsTheEager(team, 0, start);
    if AllGoOn(team, 0, start, MAX_ROUNDS) {
      LastOfRounds(team, 0, start, last, b.hypSeq);
      NumbersAreDistinct(After(team, 0, start, last).board, b.hypSeq);
      ClosingRound(team, After(team, 0, start, last));
    }
  }

  /** A critic that judges every hypothesis it is shown and a reporter that always says something never meet the cap. */
  lemma CapIsABackstop(team: Team, b: Board)
    requires OnlyInvestigatorsGather(team)
    requires b.notes == [] && b.hypotheses == [] && Blank(b.summary)
    requires forall n :: 0 <= n < MAX_ROUNDS ==> Summarizes(team.world(n, Reporter, 0))
    requires forall n :: 0 <= n < MAX_ROUNDS ==>
               !Unjudged(After(team, 0, Control(b, {}, "", []), n).board.hypotheses, team.world(n, Critic, 0))
    ensures LoopFrom(team, 0, Control(b, {}, "", [])) == WithoutCap(team, 0, Control(b, {}, "", []))
  {
    hide AfterRound, OnlyInvestigatorsGather, Summarizes, After, Unjudged, AllGoOn, LoopFrom, WithoutCap;
    CapCutsExactly(team, b);
  }
}
