/** A run that the round cap cuts short although no budget was spent: a critic that assesses one hypothesis a round. */
module CapExample {
  import opened Basics
  import opened GoStrings
  import opened Notes
  import opened Workspace
  import opened Blackboard
  import opened BlackboardRuns

  const IDEA := Proposal("idea", 0.5, [], [], "")

  function SlowWorld(round: nat, role: Role, i: nat): (r: Call)
  {
    match role
    case Planner => Call("plan", [], [], false, None, None, None)
    case Investigators => Call("", [], [], false, None, None, None)
    case Correlator => Call("", [], [], false, Some([IDEA, IDEA, IDEA]), None, None)
    case Critic =>
      var n: nat := if round > 0 then round - 1 else 0;
      Call("", [], [], false, None, Some([Assessment("h-" + Itoa(n), "supported", 0.5, "")]), None)
    case Reporter => Call("", [], [], false, None, None, Some(Report("cause", [])))
  }

  /** No domain has tools. */
  function SlowCritic(): (r: Team)
  {
    Team([], (round: nat, role: Role, i: nat) => SlowWorld(round, role, i))
  }

  function Idea(n: nat, status: string): (r: Hypothesis)
  {
    Hypothesis("h-" + Itoa(n), "idea", status, 0.5, [], [], "")
  }

  function Stage(hypotheses: seq<Hypothesis>, hypSeq: nat, summary: string): (b': Board)
  {
    Board([], hypotheses, [PlanNote("plan")], summary, [], hypSeq, false, [], {})
  }

  const NONE := "(no evidence collected yet)"

  function Start(): (k': Control)
  {
    Control(Board([], [], [], "", [], 0, false, [], {}), {}, "", [])
  }

  lemma NotBlank(s: string)
    requires s != "" && !IsSpace(s[0])
    ensures !Blank(s)
  {
    if Blank(s) {
      TrimmedFirst(s);
    }
  }

  lemma {:induction false} TrimmedFirst(s: string)
    requires s != "" && !IsSpace(s[0])
    ensures TrimSpace(s) != ""
  {
    assert TrimLeft(s) == s;
    TrimRightFirst(s);
  }

  lemma {:induction false} TrimRightFirst(s: string)
    requires s != "" && !IsSpace(s[0])
    ensures TrimRight(s) != ""
  {
    if IsSpace(s[|s| - 1]) {
      TrimRightFirst(s[..|s| - 1]);
    }
  }

  lemma ThreeIdeas(b: Board)
    requires b.evidence == [] && b.hypotheses == [] && b.hypSeq == 0 && b.prior == {}
    ensures WithAllProposals(b, [IDEA, IDEA, IDEA])
         == b.(hypotheses := [Idea(1, PROPOSED), Idea(2, PROPOSED), Idea(3, PROPOSED)], hypSeq := 3)
  {
    hide Itoa, Blank;
    NotBlank("idea");
    var three := [IDEA, IDEA, IDEA];
    assert three[..2] == [IDEA, IDEA] && three[..2][..1] == [IDEA] && [IDEA][..0] == [];
    assert KnownRefs(b) == {};
    var b1 := WithHypothesis(b, "", "", IDEA);
    assert b1 == b.(hypotheses := [Idea(1, PROPOSED)], hypSeq := 1);
    var b2 := WithHypothesis(b1, "", "", IDEA);
    assert b2 == b.(hypotheses := [Idea(1, PROPOSED), Idea(2, PROPOSED)], hypSeq := 2);
    assert WithAllProposals(b, []) == b;
    assert WithAllProposals(b, [IDEA]) == b1;
    assert WithAllProposals(b, [IDEA, IDEA]) == b2;
  }

  lemma Ids()
    ensures Itoa(1) != Itoa(2) && Itoa(2) != Itoa(3) && Itoa(1) != Itoa(3)
  {
    assert Decimal(Itoa(1)) == 1 && Decimal(Itoa(2)) == 2 && Decimal(Itoa(3)) == 3;
  }

  lemma SameTail(x: string, y: string)
    requires "h-" + x == "h-" + y
    ensures x == y
  {
    assert ("h-" + x)[2..] == x && ("h-" + y)[2..] == y;
  }

  /** Assessing one of the three. */
  lemma OneAssessed(n: nat, a: string, b: string)
    requires n == 1 || n == 2
    ensures WithAssessment([Idea(1, a), Idea(2, b), Idea(3, PROPOSED)],
                           Assessment("h-" + Itoa(n), "supported", 0.5, ""))
         == [Idea(1, if n == 1 then SUPPORTED else a), Idea(2, if n == 2 then SUPPORTED else b), Idea(3, PROPOSED)]
  {
    Ids();
    hide Itoa, Decimal;
    var hs := [Idea(1, a), Idea(2, b), Idea(3, PROPOSED)];
    assert hs[1..] == [Idea(2, b), Idea(3, PROPOSED)] && hs[1..][1..] == [Idea(3, PROPOSED)];
    if hs[0].id == "h-" + Itoa(n) {
      SameTail(Itoa(1), Itoa(n));
    }
  }

  function Three(a: string, b: string): (out: seq<Hypothesis>)
  {
    [Idea(1, a), Idea(2, b), Idea(3, PROPOSED)]
  }

  lemma CountOfThree(a: string, b: string)
    ensures |Three(a, b)| == 3 && AssessedCount(Three(a, b))
         == (if a != PROPOSED then 1 else 0) + (if b != PROPOSED then 1 else 0)
  {
    hide Itoa;
    var hs := [Idea(1, a), Idea(2, b), Idea(3, PROPOSED)];
    var two, one := [Idea(1, a), Idea(2, b)], [Idea(1, a)];
    assert hs[..2] == two && two[..1] == one && one[..0] == [];
    assert AssessedCount(one) == (if a != PROPOSED then 1 else 0);
    assert AssessedCount(two) == AssessedCount(one) + (if b != PROPOSED then 1 else 0);
  }

  function K1(): (k': Control)
  {
    Control(Stage([], 0, ""), {}, "", [Planner])
  }

  function K2(): (k': Control)
  {
    Control(Stage(Three(PROPOSED, PROPOSED), 3, ""), {}, NONE, [Planner, Correlator])
  }

  function K3(): (k': Control)
  {
    Control(Stage(Three(SUPPORTED, PROPOSED), 3, "cause"), {}, NONE, [Planner, Correlator, Critic, Reporter])
  }

  function K4(): (k': Control)
  {
    Control(Stage(Three(SUPPORTED, SUPPORTED), 3, "cause"), {}, NONE, [Planner, Correlator, Critic, Reporter, Critic])
  }

  lemma Round0()
    ensures AfterRound(SlowCritic(), 0, Start()) == K1()
    ensures Observed(SlowCritic(), Start()) == Sight(0, 0, 0, 0, false, 0, NONE, "")
  {
    RoundUnrolled(SlowCritic(), 0, Start());
    NotBlank("plan");
    hide AfterRound, RoundUpTo, Itoa, IsSpace;
    assert [] + [Planner] == [Planner];
    assert [] + [PlanNote("plan")] == [PlanNote("plan")];
  }

  lemma QuietLoop(b: Board, c: Call)
    requires c.gathered == [] && c.gaps == [] && !c.cut
    ensures AfterLoop(b, c) == b
  {
    assert b.gaps + [] == b.gaps;
  }

  lemma CorrelatorWorks()
    ensures AfterCorrelator(Stage([], 0, ""), SlowWorld(1, Correlator, 0)) == Stage(Three(PROPOSED, PROPOSED), 3, "")
  {
    QuietLoop(Stage([], 0, ""), SlowWorld(1, Correlator, 0));
    ThreeIdeas(Stage([], 0, ""));
    hide Itoa, IsSpace, WithAllProposals, PlanNote, AfterLoop;
  }

  lemma Round1()
    ensures AfterRound(SlowCritic(), 1, K1()) == K2()
    ensures Observed(SlowCritic(), K1()) == Sight(1, 0, 0, 0, false, 0, NONE, "")
  {
    RoundUnrolled(SlowCritic(), 1, K1());
    CorrelatorWorks();
    hide AfterRound, RoundUpTo, Itoa, IsSpace, AfterCorrelator, PlanNote, Idea;
    assert [Planner] + [Correlator] == [Planner, Correlator];
  }

  lemma SupportedIsNormal(id: string)
    ensures Normal(Assessment(id, "supported", 0.5, "")) == Assessment(id, "supported", 0.5, "")
  {
    var word := "supported";
    TrimmedAlready(word);
    assert ToLower(word) == word;
  }

  lemma CriticWorks(round: nat, a: string, b: string, summary: string)
    requires 2 <= round <= 3
    ensures AfterCritic(Stage(Three(a, b), 3, summary), SlowWorld(round, Critic, 0))
         == Stage(Three(if round == 2 then SUPPORTED else a, if round == 3 then SUPPORTED else b), 3, summary)
  {
    OneAssessed(round - 1, a, b);
    SupportedIsNormal("h-" + Itoa(round - 1));
    hide Itoa, PlanNote, WithAssessment, Normal;
    var one := Assessment("h-" + Itoa(round - 1), "supported", 0.5, "");
    assert [one][..0] == [];
    assert WithAllAssessments(Three(a, b), [one]) == WithAssessment(WithAllAssessments(Three(a, b), []), one);
  }

  lemma ReporterWorks(hypotheses: seq<Hypothesis>)
    ensures AfterReporter(Stage(hypotheses, 3, ""), SlowWorld(2, Reporter, 0)) == Stage(hypotheses, 3, "cause")
  {
    NotBlank("cause");
    hide PlanNote, IsSpace, AfterLoop;
    QuietLoop(Stage(hypotheses, 3, ""), SlowWorld(2, Reporter, 0));
  }

  lemma Round2()
    ensures AfterRound(SlowCritic(), 2, K2()) == K3()
    ensures Observed(SlowCritic(), K2()) == Sight(1, 0, 3, 0, false, 0, NONE, NONE)
  {
    RoundUnrolled(SlowCritic(), 2, K2());
    CountOfThree(PROPOSED, PROPOSED);
    CriticWorks(2, PROPOSED, PROPOSED, "");
    ReporterWorks(Three(SUPPORTED, PROPOSED));
    hide AfterRound, RoundUpTo, Itoa, IsSpace, AfterCritic, AfterReporter, AssessedCount, PlanNote, Three, SlowWorld;
    assert [Planner, Correlator] + [Critic] + [Reporter] == [Planner, Correlator, Critic, Reporter];
  }

  lemma Round3()
    ensures AfterRound(SlowCritic(), 3, K3()) == K4()
    ensures Observed(SlowCritic(), K3()) == Sight(1, 0, 3, 1, true, 0, NONE, NONE)
    ensures Observed(SlowCritic(), K4()) == Sight(1, 0, 3, 2, true, 0, NONE, NONE)
  {
    RoundUnrolled(SlowCritic(), 3, K3());
    CountOfThree(SUPPORTED, PROPOSED);
    CountOfThree(SUPPORTED, SUPPORTED);
    CriticWorks(3, SUPPORTED, PROPOSED, "cause");
    NotBlank("cause");
    hide AfterRound, RoundUpTo, Itoa, IsSpace, Blank, AfterCritic, AssessedCount, PlanNote, Three;
    assert [Planner, Correlator, Critic, Reporter] + [Critic] == [Planner, Correlator, Critic, Reporter, Critic];
  }

  /**
   * The cap is more than a backstop: no budget is spent here, and yet the run stops at the cap with a
   * hypothesis nobody has assessed, with the critic still eligible, where the uncapped loop would go on.
   */
  lemma CapCanCutTheCritic()
    ensures OnlyInvestigatorsGather(SlowCritic())
    ensures LoopFrom(SlowCritic(), 0, Start()) == (K4(), MAX_ROUNDS)
    ensures !K4().board.truncated && Eligible(Critic, Observed(SlowCritic(), K4()))
    ensures WithoutCap(SlowCritic(), 0, Start()).1 > MAX_ROUNDS
  {
    Round0();
    Round1();
    Round2();
    Round3();
    hide AfterRound, Observed;
    var team := SlowCritic();
    LoopUnfolds(team, 0, Start());
    LoopUnfolds(team, 1, K1());
    LoopUnfolds(team, 2, K2());
    LoopUnfolds(team, 3, K3());
    LoopEnds(team, K4());
    UncappedGoesOn();
  }

  lemma UncappedGoesOn()
    requires Observed(SlowCritic(), K4()) == Sight(1, 0, 3, 2, true, 0, NONE, NONE)
    requires Observed(SlowCritic(), K3()) == Sight(1, 0, 3, 1, true, 0, NONE, NONE)
    requires Observed(SlowCritic(), K2()) == Sight(1, 0, 3, 0, false, 0, NONE, NONE)
    requires Observed(SlowCritic(), K1()) == Sight(1, 0, 0, 0, false, 0, NONE, "")
    requires Observed(SlowCritic(), Start()) == Sight(0, 0, 0, 0, false, 0, NONE, "")
    requires AfterRound(SlowCritic(), 0, Start()) == K1() && AfterRound(SlowCritic(), 1, K1()) == K2()
    requires AfterRound(SlowCritic(), 2, K2()) == K3() && AfterRound(SlowCritic(), 3, K3()) == K4()
    ensures OnlyInvestigatorsGather(SlowCritic())
    ensures WithoutCap(SlowCritic(), 0, Start()).1 > MAX_ROUNDS
  {
    hide AfterRound, Observed;
    var team := SlowCritic();
    assert Eligible(CONTRIBUTORS[3], Observed(team, K4()));
    assert WithoutCap(team, 4, K4()).1 >= 1;
    assert WithoutCap(team, 3, K3()).1 >= 2 by { assert Eligible(CONTRIBUTORS[3], Observed(team, K3())); }
    assert WithoutCap(team, 2, K2()).1 >= 3 by { assert Eligible(CONTRIBUTORS[3], Observed(team, K2())); }
    assert WithoutCap(team, 1, K1()).1 >= 4 by { assert Eligible(CONTRIBUTORS[2], Observed(team, K1())); }
    assert Eligible(CONTRIBUTORS[0], Observed(team, Start()));
  }
}
