/** Every run of the control loop: it stops by itself, and it does not stop before it has reported. */
module BlackboardRuns {
  import opened GoStrings
  import opened Notes
  import opened Workspace
  import opened Blackboard

  /** The premise of every result here: only investigators come back with evidence. */
  ghost predicate OnlyInvestigatorsGather(team: Team)
  {
    forall round, role, i :: role != Investigators ==> team.world(round, role, i).gathered == []
  }

  // --- what one contributor may change ------------------------------------------------------

  lemma LoopWithoutTools(b: Board, c: Call)
    requires c.gathered == []
    ensures AfterLoop(b, c) == b.(gaps := b.gaps + c.gaps, truncated := b.truncated || c.cut)
  {
  }

  lemma PlannerEffect(b: Board, c: Call)
    requires c.gathered == []
    ensures var b' := AfterPlanner(b, c);
            && b' == b.(notes := b'.notes, gaps := b'.gaps, truncated := b'.truncated)
            && |b.notes| <= |b'.notes| && (b.truncated ==> b'.truncated)
  {
    LoopWithoutTools(b, c);
  }

  lemma {:induction false} InvestigatedEffect(team: Team, round: nat, k: Control, n: nat)
    requires n <= |team.active|
    ensures var k' := Investigated(team, round, k, n);
            && k'.board == k.board.(evidence := k'.board.evidence, notes := k'.board.notes, gaps := k'.board.gaps,
                                    truncated := k'.board.truncated)
            && |k.board.notes| <= |k'.board.notes| && (k.board.truncated ==> k'.board.truncated)
            && k'.lastCorrelated == k.lastCorrelated && k'.ran == k.ran
            && k.investigated <= k'.investigated
            && forall i :: 0 <= i < n ==> team.active[i] in k'.investigated
  {
    hide WithAllEvidence, FindingsNote, Blank;
    if n > 0 {
      InvestigatedEffect(team, round, k, n - 1);
    }
  }

  lemma {:induction false} NoPending(active: seq<Domain>, investigated: set<Domain>)
    requires forall i :: 0 <= i < |active| ==> active[i] in investigated
    ensures PendingCount(active, investigated) == 0
  {
    if active != [] {
      NoPending(active[..|active| - 1], investigated);
    }
  }

  lemma InvestigatorsEffect(team: Team, round: nat, k: Control)
    ensures var k' := Contributed(team, round, Investigators, k);
            && k'.board == k.board.(evidence := k'.board.evidence, notes := k'.board.notes, gaps := k'.board.gaps,
                                    truncated := k'.board.truncated)
            && |k.board.notes| <= |k'.board.notes| && (k.board.truncated ==> k'.board.truncated)
            && k'.lastCorrelated == k.lastCorrelated && k'.ran == k.ran
            && PendingCount(team.active, k'.investigated) == 0
  {
    InvestigatedEffect(team, round, k, |team.active|);
    var k' := Investigated(team, round, k, |team.active|);
    SortPermutes(k'.board.notes, NoteOrder(team.active));
    NoPending(team.active, k'.investigated);
  }

  /** New hypotheses are proposed, so none of them counts as assessed. */
  lemma {:induction false} ProposalsEffect(b: Board, list: seq<Proposal>)
    ensures var b' := WithAllProposals(b, list);
            && b' == b.(hypotheses := b'.hypotheses, hypSeq := b'.hypSeq, gaps := b'.gaps)
            && |b.hypotheses| <= |b'.hypotheses| && AssessedCount(b'.hypotheses) == AssessedCount(b.hypotheses)
  {
    if list != [] {
      var init, last := WithAllProposals(b, list[..|list| - 1]), list[|list| - 1];
      ProposalsEffect(b, list[..|list| - 1]);
      hide Resolved, KnownRefs, AllResolve, Itoa;
      var h := WithHypothesis(init, "", "", last.(confidence := Clamp(last.confidence))).hypotheses;
      assert h[..|h| - 1] == init.hypotheses;
    }
  }

  lemma CorrelatorEffect(b: Board, c: Call)
    requires c.gathered == []
    ensures var b' := AfterCorrelator(b, c);
            && b' == b.(hypotheses := b'.hypotheses, hypSeq := b'.hypSeq, gaps := b'.gaps, truncated := b'.truncated)
            && |b.hypotheses| <= |b'.hypotheses| && AssessedCount(b'.hypotheses) == AssessedCount(b.hypotheses)
            && (b.truncated ==> b'.truncated)
  {
    LoopWithoutTools(b, c);
    if c.proposals.Some? {
      ProposalsEffect(AfterLoop(b, c), c.proposals.value);
    }
  }

  lemma {:induction false} AssessedFrontCount(first: Hypothesis, rest: seq<Hypothesis>)
    ensures AssessedCount([first] + rest) == (if first.status != PROPOSED then 1 else 0) + AssessedCount(rest)
    decreases |rest|
  {
    if rest == [] {
      assert ([first] + rest)[..0] == [];
    } else {
      var init := rest[..|rest| - 1];
      AssessedFrontCount(first, init);
      assert ([first] + rest)[..|rest|] == [first] + init;
    }
  }

  /** An assessment never makes a hypothesis unassessed again. */
  lemma {:induction false} AssessmentEffect(hypotheses: seq<Hypothesis>, a: Assessment)
    requires a.status != PROPOSED
    ensures |WithAssessment(hypotheses, a)| == |hypotheses|
    ensures AssessedCount(hypotheses) <= AssessedCount(WithAssessment(hypotheses, a))
  {
    if hypotheses != [] {
      assert hypotheses == [hypotheses[0]] + hypotheses[1..];
      AssessedFrontCount(hypotheses[0], hypotheses[1..]);
      AssessedFrontCount(Assessed(hypotheses[0], a), hypotheses[1..]);
      AssessedFrontCount(hypotheses[0], WithAssessment(hypotheses[1..], a));
      AssessmentEffect(hypotheses[1..], a);
    }
  }

  lemma {:induction false} AssessmentsEffect(hypotheses: seq<Hypothesis>, list: seq<Assessment>)
    ensures |WithAllAssessments(hypotheses, list)| == |hypotheses|
    ensures AssessedCount(hypotheses) <= AssessedCount(WithAllAssessments(hypotheses, list))
  {
    if list != [] {
      AssessmentsEffect(hypotheses, list[..|list| - 1]);
      AssessmentEffect(WithAllAssessments(hypotheses, list[..|list| - 1]), Normal(list[|list| - 1]));
    }
  }

  lemma CriticEffect(b: Board, c: Call)
    requires c.gathered == []
    ensures var b' := AfterCritic(b, c);
            && b' == b.(hypotheses := b'.hypotheses, gaps := b'.gaps, truncated := b'.truncated)
            && |b'.hypotheses| == |b.hypotheses| && AssessedCount(b.hypotheses) <= AssessedCount(b'.hypotheses)
            && (b.truncated ==> b'.truncated)
  {
    LoopWithoutTools(b, c);
    if c.assessments.Some? {
      AssessmentsEffect(b.hypotheses, c.assessments.value);
    }
  }

  lemma TrimmedIsNotBlank(s: string)
    requires !Blank(s)
    ensures !Blank(TrimSpace(s))
  {
    TrimmedEnds(s);
    TrimmedAlready(TrimSpace(s));
  }

  lemma {:induction false} TrimLeftEnds(s: string)
    ensures TrimLeft(s) != "" ==> !IsSpace(TrimLeft(s)[0])
  {
    if s != "" && IsSpace(s[0]) {
      TrimLeftEnds(s[1..]);
    }
  }

  lemma {:induction false} TrimRightEnds(s: string)
    ensures TrimRight(s) != "" ==> !IsSpace(TrimRight(s)[|TrimRight(s)| - 1]) && TrimRight(s)[0] == s[0]
  {
    if s != "" && IsSpace(s[|s| - 1]) {
      TrimRightEnds(s[..|s| - 1]);
    }
  }

  lemma TrimmedEnds(s: string)
    ensures var t := TrimSpace(s); t != "" ==> !IsSpace(t[0]) && !IsSpace(t[|t| - 1])
  {
    TrimLeftEnds(s);
    TrimRightEnds(TrimLeft(s));
  }

  lemma {:induction false} AdviceEffect(b: Board, list: seq<Advice>)
    ensures var b' := WithAllAdvice(b, list); b' == b.(recommendations := b'.recommendations)
  {
    if list != [] {
      AdviceEffect(b, list[..|list| - 1]);
    }
  }

  /** Whether a reporter's reply leaves a summary behind. */
  predicate Summarizes(c: Call)
  {
    match c.report
    case None => !Blank(c.text)
    case Some(r) => !Blank(r.summary)
  }

  lemma ReporterEffect(b: Board, c: Call)
    requires c.gathered == []
    ensures var b' := AfterReporter(b, c);
            && b' == b.(summary := b'.summary, recommendations := b'.recommendations, gaps := b'.gaps,
                        truncated := b'.truncated)
            && (!Blank(b'.summary) <==> Summarizes(c) || !Blank(b.summary)) && (b.truncated ==> b'.truncated)
  {
    LoopWithoutTools(b, c);
    match c.report {
      case None =>
        if !Blank(c.text) {
          TrimmedIsNotBlank(c.text);
        }
      case Some(r) =>
        hide WithAllAdvice, AfterLoop, Blank;
        var looped := AfterLoop(b, c);
        AdviceEffect(if Blank(r.summary) then looped else looped.(summary := r.summary), r.advice);
    }
  }

  // --- one round ---------------------------------------------------------------------------------

  /** A contributor runs when eligible, and is recorded. */
  function Turn(team: Team, round: nat, role: Role, s: Sight, k: Control): (k': Control)
  {
    if Eligible(role, s) then var k' := Contributed(team, round, role, k); k'.(ran := k'.ran + [role]) else k
  }

  lemma RoundUnrolled(team: Team, round: nat, k: Control)
    ensures var s := Observed(team, k);
            var k1 := Turn(team, round, Planner, s, k);
            var k2 := Turn(team, round, Investigators, s, k1);
            var k3 := Turn(team, round, Correlator, s, k2);
            var k4 := Turn(team, round, Critic, s, k3);
            AfterRound(team, round, k) == Turn(team, round, Reporter, s, k4)
  {
    hide Contributed, Observed, Eligible;
    var s := Observed(team, k);
    assert RoundUpTo(team, round, k, 1) == Turn(team, round, Planner, s, k);
    assert RoundUpTo(team, round, k, 2) == Turn(team, round, Investigators, s, RoundUpTo(team, round, k, 1));
    assert RoundUpTo(team, round, k, 3) == Turn(team, round, Correlator, s, RoundUpTo(team, round, k, 2));
    assert RoundUpTo(team, round, k, 4) == Turn(team, round, Critic, s, RoundUpTo(team, round, k, 3));
    assert RoundUpTo(team, round, k, 5) == Turn(team, round, Reporter, s, RoundUpTo(team, round, k, 4));
  }

  /** What one contributor's turn does, in the terms the control loop sees. */
  ghost predicate TurnEffect(team: Team, role: Role, s: Sight, k: Control, k': Control)
  {
    var b, b' := k.board, k'.board;
    && k'.ran == (if Eligible(role, s) then k.ran + [role] else k.ran)
    && (b.truncated ==> b'.truncated)
    && b'.prior == b.prior
    && (if role == Investigators && Eligible(role, s) then PendingCount(team.active, k'.investigated) == 0
        else k'.investigated == k.investigated && b'.evidence == b.evidence)
    && |b.notes| <= |b'.notes| && (|b.notes| != |b'.notes| ==> Eligible(role, s) && (role == Planner || role == Investigators))
    && (if role == Correlator && Eligible(role, s) then
          k'.lastCorrelated == EvidenceDigest(b.evidence)
          && |b.hypotheses| <= |b'.hypotheses| && AssessedCount(b'.hypotheses) == AssessedCount(b.hypotheses)
        else
          k'.lastCorrelated == k.lastCorrelated && |b'.hypotheses| == |b.hypotheses|
          && (if role == Critic && Eligible(role, s) then AssessedCount(b.hypotheses) <= AssessedCount(b'.hypotheses)
              else b'.hypotheses == b.hypotheses))
    && (if role == Reporter && Eligible(role, s) then (!Blank(b.summary) ==> !Blank(b'.summary)) else b'.summary == b.summary)
  }

  lemma TurnHasEffect(team: Team, round: nat, role: Role, s: Sight, k: Control)
    requires OnlyInvestigatorsGather(team)
    ensures TurnEffect(team, role, s, k, Turn(team, round, role, s, k))
  {
    hide AfterPlanner, AfterCorrelator, AfterCritic, AfterReporter, Investigated, SortedNotes, Blank, AssessedCount,
         PendingCount, EvidenceDigest;
    if Eligible(role, s) {
      match role {
        case Planner => PlannerEffect(k.board, team.world(round, Planner, 0));
        case Investigators => InvestigatorsEffect(team, round, k);
        case Correlator => CorrelatorEffect(k.board, team.world(round, Correlator, 0));
        case Critic => CriticEffect(k.board, team.world(round, Critic, 0));
        case Reporter => ReporterEffect(k.board, team.world(round, Reporter, 0));
      }
    }
  }

  /** The five turns of a round, with what each of them did. */
  lemma RoundTurns(team: Team, round: nat, k: Control) returns (k1: Control, k2: Control, k3: Control, k4: Control)
    requires OnlyInvestigatorsGather(team)
    ensures var s, k' := Observed(team, k), AfterRound(team, round, k);
            && TurnEffect(team, Planner, s, k, k1) && TurnEffect(team, Investigators, s, k1, k2)
            && TurnEffect(team, Correlator, s, k2, k3) && TurnEffect(team, Critic, s, k3, k4)
            && TurnEffect(team, Reporter, s, k4, k')
  {
    hide Turn, TurnEffect, AfterRound, OnlyInvestigatorsGather;
    var s := Observed(team, k);
    RoundUnrolled(team, round, k);
    k1 := Turn(team, round, Planner, s, k);
    k2 := Turn(team, round, Investigators, s, k1);
    k3 := Turn(team, round, Correlator, s, k2);
    k4 := Turn(team, round, Critic, s, k3);
    TurnHasEffect(team, round, Planner, s, k);
    TurnHasEffect(team, round, Investigators, s, k1);
    TurnHasEffect(team, round, Correlator, s, k2);
    TurnHasEffect(team, round, Critic, s, k3);
    TurnHasEffect(team, round, Reporter, s, k4);
  }

  // --- it stops by itself ------------------------------------------------------------------------------

  function Unassessed(s: Sight): (n: int) { s.hypotheses - s.assessed }

  function Flag(b: bool): (n: nat) { if b then 1 else 0 }

  /** Pending domains, uncorrelated evidence, unassessed hypotheses, missing summary, missing notes: lower, in that order. */
  ghost predicate Lower(a: Sight, b: Sight)
  {
    var ua, ub := Flag(a.digest != a.lastCorrelated), Flag(b.digest != b.lastCorrelated);
    || a.pending < b.pending
    || (a.pending == b.pending && ua < ub)
    || (a.pending == b.pending && ua == ub && Unassessed(a) < Unassessed(b))
    || (a.pending == b.pending && ua == ub && Unassessed(a) == Unassessed(b) && Flag(!a.summary) < Flag(!b.summary))
    || (a.pending == b.pending && ua == ub && Unassessed(a) == Unassessed(b) && a.summary == b.summary
        && Flag(a.notes == 0) < Flag(b.notes == 0))
  }

  /** Every round that changed something is a step down: the loop needs no cap to terminate. */
  lemma ChangingRoundsDescend(team: Team, round: nat, k: Control)
    requires OnlyInvestigatorsGather(team)
    requires Changed(Observed(team, k), Observed(team, AfterRound(team, round, k)))
    ensures Lower(Observed(team, AfterRound(team, round, k)), Observed(team, k))
  {
    hide AfterRound, PendingCount, AssessedCount, EvidenceDigest, Blank, OnlyInvestigatorsGather;
    var k1, k2, k3, k4 := RoundTurns(team, round, k);
  }

  /** The loop with its cap taken away; that this definition is accepted is the termination proof. */
  ghost function WithoutCap(team: Team, round: nat, k: Control): (r: (Control, nat))
    requires OnlyInvestigatorsGather(team)
    decreases Observed(team, k).pending, Flag(Observed(team, k).digest != k.lastCorrelated),
              Unassessed(Observed(team, k)), Flag(!Observed(team, k).summary), Flag(Observed(team, k).notes == 0)
  {
    var s := Observed(team, k);
    if NobodyEligible(s) then (k, 0)
    else
      var k' := AfterRound(team, round, k);
      if !Changed(s, Observed(team, k')) || k'.board.truncated then (k', 1)
      else
        ChangingRoundsDescend(team, round, k);
        var r := WithoutCap(team, round + 1, k');
        (r.0, r.1 + 1)
  }

  /** The cap only ever shortens a run: it runs as many rounds as it would without, up to the cap. */
  lemma {:induction false} CapOnlyShortens(team: Team, round: nat, k: Control)
    requires OnlyInvestigatorsGather(team) && round <= MAX_ROUNDS
    ensures var capped, free := LoopFrom(team, round, k), WithoutCap(team, round, k);
            && capped.1 == (if free.1 <= MAX_ROUNDS - round then free.1 else MAX_ROUNDS - round)
            && (free.1 <= MAX_ROUNDS - round ==> capped.0 == free.0)
    decreases MAX_ROUNDS - round
  {
    hide AfterRound, Observed, NobodyEligible, Changed, OnlyInvestigatorsGather;
    if round < MAX_ROUNDS {
      LoopUnfolds(team, round, k);
      CapOnlyShortens(team, round + 1, AfterRound(team, round, k));
    }
  }

  // --- it reports before it stops --------------------------------------------------------------------------

  ghost predicate Reported(ran: seq<Role>)
  {
    exists i, j :: 0 <= i < j < |ran| && ran[i] == Critic && ran[j] == Reporter
  }

  ghost predicate Clean(k: Control)
  {
    k.board.hypotheses == [] && k.lastCorrelated == "" && Blank(k.board.summary)
  }

  /** Hypotheses are there, correlated from all the evidence there is, and nobody has touched them yet. */
  ghost predicate Found(k: Control)
  {
    && k.board.hypotheses != [] && AssessedCount(k.board.hypotheses) == 0 && Blank(k.board.summary)
    && k.board.notes != [] && k.lastCorrelated == EvidenceDigest(k.board.evidence)
  }

  /** Everything is looked into and correlated: only the critic and the reporter can have work left. */
  ghost predicate Settled(team: Team, k: Control)
  {
    && PendingCount(team.active, k.investigated) == 0 && k.board.notes != []
    && k.lastCorrelated == EvidenceDigest(k.board.evidence)
  }

  /** Where a run that started clean stands when a round begins. */
  ghost predicate Phase(team: Team, round: nat, k: Control)
  {
    || (Reported(k.ran) && Settled(team, k))
    || (round == 0 && Clean(k) && k.board.notes == [])
    || (PendingCount(team.active, k.investigated) == 0
        && ((round == 1 && Clean(k)) || (round == 2 && Clean(k) && k.board.notes != []) || (2 <= round <= 3 && Found(k))))
  }

  lemma DigestIsNotEmpty(evidence: seq<Evidence>)
    ensures EvidenceDigest(evidence) != ""
  {
  }

  lemma StaysReported(team: Team, round: nat, k: Control)
    requires OnlyInvestigatorsGather(team) && Reported(k.ran) && Settled(team, k)
    ensures var k' := AfterRound(team, round, k); Reported(k'.ran) && Settled(team, k')
  {
    hide AfterRound, PendingCount, AssessedCount, EvidenceDigest, Blank, OnlyInvestigatorsGather;
    var k1, k2, k3, k4 := RoundTurns(team, round, k);
    var i, j :| 0 <= i < j < |k.ran| && k.ran[i] == Critic && k.ran[j] == Reporter;
    var ran := AfterRound(team, round, k).ran;
    assert ran[i] == Critic && ran[j] == Reporter;
  }

  /** One round moves a clean run on by one phase, unless nothing changed or a budget ran out. */
  lemma PhaseAdvances(team: Team, round: nat, k: Control)
    requires OnlyInvestigatorsGather(team) && Phase(team, round, k) && round < MAX_ROUNDS
    ensures var s, k' := Observed(team, k), AfterRound(team, round, k);
            && !(NobodyEligible(s) && !Reported(k.ran))
            && (Changed(s, Observed(team, k')) ==> Phase(team, round + 1, k'))
            && (!Changed(s, Observed(team, k')) ==> k'.board.hypotheses == [] || Reported(k'.ran))
  {
    hide AfterRound, PendingCount, AssessedCount, EvidenceDigest, Blank, OnlyInvestigatorsGather;
    if Reported(k.ran) && Settled(team, k) {
      StaysReported(team, round, k);
    } else {
      var s, k' := Observed(team, k), AfterRound(team, round, k);
      var k1, k2, k3, k4 := RoundTurns(team, round, k);
      DigestIsNotEmpty(k.board.evidence);
      assert CONTRIBUTORS[0] == Planner && CONTRIBUTORS[2] == Correlator && CONTRIBUTORS[3] == Critic;
      if Found(k) {
        var n := |k'.ran|;
        assert k'.ran[n - 2] == Critic && k'.ran[n - 1] == Reporter;
      }
    }
  }

  /**
   * A run that starts with an empty workspace, is cut short by no budget and ends with a hypothesis
   * has run the reporter after the critic: four rounds are always enough for that.
   */
  lemma {:induction false} ReportedBeforeStopping(team: Team, round: nat, k: Control)
    requires OnlyInvestigatorsGather(team) && Phase(team, round, k) && round <= MAX_ROUNDS
    ensures var last := LoopFrom(team, round, k).0;
            !last.board.truncated && last.board.hypotheses != [] ==> Reported(last.ran)
    decreases MAX_ROUNDS - round
  {
    hide AfterRound, Observed, NobodyEligible, Changed, OnlyInvestigatorsGather;
    if round < MAX_ROUNDS {
      PhaseAdvances(team, round, k);
      LoopUnfolds(team, round, k);
      var k' := AfterRound(team, round, k);
      if Changed(Observed(team, k), Observed(team, k')) {
        ReportedBeforeStopping(team, round + 1, k');
      }
    }
  }

  lemma CleanRunsReport(team: Team, b: Board)
    requires OnlyInvestigatorsGather(team)
    requires b.notes == [] && b.hypotheses == [] && Blank(b.summary)
    ensures var last := LoopFrom(team, 0, Control(b, {}, "", [])).0;
            !last.board.truncated && last.board.hypotheses != [] ==> Reported(last.ran)
  {
    ReportedBeforeStopping(team, 0, Control(b, {}, "", []));
  }

  // --- new evidence reopens correlation -----------------------------------------------------------------------

  lemma {:induction false} LinesGrow(a: seq<Evidence>, more: seq<Evidence>)
    ensures EvidenceLines(a) <= EvidenceLines(a + more)
    ensures more != [] ==> |EvidenceLines(a)| < |EvidenceLines(a + more)|
    decreases |more|
  {
    if more == [] {
      assert a + more == a;
    } else {
      LinesGrow(a, more[..|more| - 1]);
      assert (a + more)[..|a + more| - 1] == a + more[..|more| - 1];
    }
  }

  /** The digest the loop compares tells any evidence from more evidence. */
  lemma DigestSeesNewEvidence(a: seq<Evidence>, more: seq<Evidence>)
    requires more != []
    ensures EvidenceDigest(a + more) != EvidenceDigest(a)
  {
    LinesGrow(a, more);
    if a == [] {
      assert a + more == [more[0]] + more[1..];
      LinesGrow([more[0]], more[1..]);
      assert EvidenceLines([more[0]]) == EvidenceLines([more[0]][..0]) + EvidenceLine(more[0]);
      assert EvidenceDigest(a + more)[0] == '-';
    }
  }

  // --- no hypothesis cites what the run does not have ---------------------------------------------------------------

  ghost predicate Cites(h: Hypothesis, known: set<string>)
  {
    forall r :: r in h.supporting || r in h.contradicting ==> r in known
  }

  ghost predicate CitationsHold(b: Board)
  {
    forall i :: 0 <= i < |b.hypotheses| ==> Cites(b.hypotheses[i], KnownRefs(b))
  }

  lemma {:induction false} EvidenceGrows(evidence: seq<Evidence>, more: seq<Evidence>)
    ensures evidence <= WithAllEvidence(evidence, more)
  {
    if more != [] {
      EvidenceGrows(evidence, more[..|more| - 1]);
    }
  }

  lemma AfterLoopKeepsCitations(b: Board, c: Call)
    requires CitationsHold(b)
    ensures CitationsHold(AfterLoop(b, c))
  {
    EvidenceGrows(b.evidence, c.gathered);
    hide WithAllEvidence;
    var b' := AfterLoop(b, c);
    forall r | r in KnownRefs(b) ensures r in KnownRefs(b') {
      if r !in b.prior {
        var i :| 0 <= i < |b.evidence| && b.evidence[i].id != "" && b.evidence[i].id == r;
        assert b'.evidence[i].id == r;
      }
    }
  }

  lemma {:induction false} ResolvedAreKnown(refs: seq<string>, known: set<string>)
    ensures forall r :: r in Resolved(refs, known) ==> r in known
  {
    if refs != [] {
      ResolvedAreKnown(refs[..|refs| - 1], known);
    }
  }

  lemma {:induction false} ProposalsKeepCitations(b: Board, list: seq<Proposal>)
    requires CitationsHold(b)
    ensures CitationsHold(WithAllProposals(b, list))
  {
    if list != [] {
      var init, last := WithAllProposals(b, list[..|list| - 1]), list[|list| - 1];
      ProposalsKeepCitations(b, list[..|list| - 1]);
      ResolvedAreKnown(last.supporting, KnownRefs(init));
      ResolvedAreKnown(last.contradicting, KnownRefs(init));
      hide Resolved, AllResolve, Itoa, Blank;
      assert KnownRefs(WithHypothesis(init, "", "", last.(confidence := Clamp(last.confidence)))) == KnownRefs(init);
    }
  }

  lemma {:induction false} AssessmentKeepsRefs(hypotheses: seq<Hypothesis>, a: Assessment, known: set<string>)
    requires forall i :: 0 <= i < |hypotheses| ==> Cites(hypotheses[i], known)
    ensures forall i :: 0 <= i < |WithAssessment(hypotheses, a)| ==> Cites(WithAssessment(hypotheses, a)[i], known)
  {
    if hypotheses != [] {
      assert Cites(Assessed(hypotheses[0], a), known) by { assert Cites(hypotheses[0], known); }
      hide Cites, Assessed;
      AssessmentKeepsRefs(hypotheses[1..], a, known);
    }
  }

  lemma {:induction false} AssessmentsKeepRefs(hypotheses: seq<Hypothesis>, list: seq<Assessment>, known: set<string>)
    requires forall i :: 0 <= i < |hypotheses| ==> Cites(hypotheses[i], known)
    ensures forall i :: 0 <= i < |WithAllAssessments(hypotheses, list)| ==> Cites(WithAllAssessments(hypotheses, list)[i], known)
  {
    hide Cites;
    if list != [] {
      AssessmentsKeepRefs(hypotheses, list[..|list| - 1], known);
      AssessmentKeepsRefs(WithAllAssessments(hypotheses, list[..|list| - 1]), Normal(list[|list| - 1]), known);
    }
  }

  lemma {:induction false} InvestigatedKeepsCitations(team: Team, round: nat, k: Control, n: nat)
    requires n <= |team.active| && CitationsHold(k.board)
    ensures CitationsHold(Investigated(team, round, k, n).board)
  {
    hide AfterLoop, FindingsNote, Blank;
    if n > 0 {
      InvestigatedKeepsCitations(team, round, k, n - 1);
      var k' := Investigated(team, round, k, n - 1);
      AfterLoopKeepsCitations(k'.board, team.world(round, Investigators, n - 1));
    }
  }

  lemma ContributedKeepsCitations(team: Team, round: nat, role: Role, k: Control)
    requires CitationsHold(k.board)
    ensures CitationsHold(Contributed(team, round, role, k).board)
  {
    hide AfterLoop, Investigated, SortedNotes, Cites, Blank, WithAllProposals, WithAllAssessments, WithAllAdvice;
    var c := team.world(round, role, 0);
    AfterLoopKeepsCitations(k.board, c);
    var looped := AfterLoop(k.board, c);
    match role {
      case Investigators => InvestigatedKeepsCitations(team, round, k, |team.active|);
      case Correlator =>
        if c.proposals.Some? {
          ProposalsKeepCitations(looped, c.proposals.value);
        }
      case Critic =>
        if c.assessments.Some? {
          AssessmentsKeepRefs(looped.hypotheses, c.assessments.value, KnownRefs(looped));
        }
      case Reporter =>
        if c.report.Some? {
          var r := c.report.value;
          AdviceEffect(if Blank(r.summary) then looped else looped.(summary := r.summary), r.advice);
        }
      case _ =>
    }
  }

  lemma {:induction false} RoundKeepsCitations(team: Team, round: nat, k: Control, n: nat)
    requires n <= |CONTRIBUTORS| && CitationsHold(k.board)
    ensures CitationsHold(RoundUpTo(team, round, k, n).board)
  {
    hide Contributed, CitationsHold, Observed, Eligible;
    if n > 0 {
      RoundKeepsCitations(team, round, k, n - 1);
      ContributedKeepsCitations(team, round, CONTRIBUTORS[n - 1], RoundUpTo(team, round, k, n - 1));
    }
  }

  /** Whatever the models claim, every citation a run ends with names evidence it collected or was given. */
  lemma {:induction false} RunsKeepCitations(team: Team, round: nat, k: Control)
    requires CitationsHold(k.board) && round <= MAX_ROUNDS
    ensures CitationsHold(LoopFrom(team, round, k).0.board)
    decreases MAX_ROUNDS - round
  {
    hide CitationsHold, Observed, NobodyEligible, Changed, RoundUpTo;
    if round < MAX_ROUNDS {
      LoopUnfolds(team, round, k);
      RoundKeepsCitations(team, round, k, |CONTRIBUTORS|);
      RunsKeepCitations(team, round + 1, AfterRound(team, round, k));
    }
  }
}
