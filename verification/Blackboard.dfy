/** The blackboard control loop: contributors act when the shared state makes them eligible. */
module Blackboard {
  import opened GoStrings
  import opened Notes
  import opened Workspace

  // --- what the control component sees ---------------------------------------------------

  datatype Role = Planner | Investigators | Correlator | Critic | Reporter

  const CONTRIBUTORS: seq<Role> := [Planner, Investigators, Correlator, Critic, Reporter]

  const MAX_ROUNDS: nat := 4

  /** The domains that have tools, and what each model call of the run comes to: any function at all. */
  datatype Team = Team(active: seq<Domain>, world: (nat, Role, nat) -> Call)

  /** The workspace, the loop's own variables, and the contributors that have run so far. */
  datatype Control = Control(board: Board, investigated: set<Domain>, lastCorrelated: string, ran: seq<Role>)

  datatype Sight = Sight(
    notes: nat, evidence: nat, hypotheses: nat, assessed: nat, summary: bool, pending: nat, digest: string,
    lastCorrelated: string)

  function AssessedCount(hypotheses: seq<Hypothesis>): (n: nat)
    ensures n <= |hypotheses|
  {
    if hypotheses == [] then 0
    else AssessedCount(hypotheses[..|hypotheses| - 1]) + (if hypotheses[|hypotheses| - 1].status != PROPOSED then 1 else 0)
  }

  function PendingCount(active: seq<Domain>, investigated: set<Domain>): (n: nat)
  {
    if active == [] then 0
    else PendingCount(active[..|active| - 1], investigated) + (if active[|active| - 1] in investigated then 0 else 1)
  }

  /** observe. */
  function Observed(team: Team, k: Control): (r: Sight)
  {
    Sight(|k.board.notes|, |k.board.evidence|, |k.board.hypotheses|, AssessedCount(k.board.hypotheses),
          !Blank(k.board.summary), PendingCount(team.active, k.investigated), EvidenceDigest(k.board.evidence),
          k.lastCorrelated)
  }

  predicate Eligible(role: Role, s: Sight)
  {
    match role
    case Planner => s.notes == 0
    case Investigators => s.pending > 0
    case Correlator => s.notes > 0 && s.digest != s.lastCorrelated
    case Critic => s.hypotheses > s.assessed
    case Reporter => s.hypotheses > 0 && !s.summary
  }

  /** changed. */
  predicate Changed(before: Sight, after: Sight)
  {
    || before.notes != after.notes || before.evidence != after.evidence || before.hypotheses != after.hypotheses
    || before.assessed != after.assessed || before.summary != after.summary || before.pending != after.pending
  }

  // --- one contributor ---------------------------------------------------------------------

  /** The investigators among the first `n` domains that have not run yet, one after another. */
  function Investigated(team: Team, round: nat, k: Control, n: nat): (k': Control)
    requires n <= |team.active|
  {
    if n == 0 then k
    else
      var k', d := Investigated(team, round, k, n - 1), team.active[n - 1];
      if d in k'.investigated then k'
      else
        k'.(investigated := k'.investigated + {d},
            board := AfterInvestigator(k'.board, d, team.world(round, Investigators, n - 1)))
  }

  function Contributed(team: Team, round: nat, role: Role, k: Control): (k': Control)
  {
    match role
    case Planner => k.(board := AfterPlanner(k.board, team.world(round, Planner, 0)))
    case Investigators =>
      var k' := Investigated(team, round, k, |team.active|);
      k'.(board := k'.board.(notes := SortedNotes(k'.board.notes, NoteOrder(team.active))))
    case Correlator =>
      k.(lastCorrelated := EvidenceDigest(k.board.evidence),
         board := AfterCorrelator(k.board, team.world(round, Correlator, 0)))
    case Critic => k.(board := AfterCritic(k.board, team.world(round, Critic, 0)))
    case Reporter => k.(board := AfterReporter(k.board, team.world(round, Reporter, 0)))
  }

  /** The first `n` contributors of a round, each judged by what was seen when the round began. */
  function RoundUpTo(team: Team, round: nat, k: Control, n: nat): (k': Control)
    requires n <= |CONTRIBUTORS|
  {
    if n == 0 then k
    else
      var k', role := RoundUpTo(team, round, k, n - 1), CONTRIBUTORS[n - 1];
      if Eligible(role, Observed(team, k)) then
        var k'' := Contributed(team, round, role, k');
        k''.(ran := k''.ran + [role])
      else k'
  }

  function AfterRound(team: Team, round: nat, k: Control): (k': Control)
  {
    RoundUpTo(team, round, k, |CONTRIBUTORS|)
  }

  predicate NobodyEligible(s: Sight)
  {
    forall i :: 0 <= i < |CONTRIBUTORS| ==> !Eligible(CONTRIBUTORS[i], s)
  }

  /** The loop from one round on, and how many rounds it ran. */
  function LoopFrom(team: Team, round: nat, k: Control): (r: (Control, nat))
    decreases MAX_ROUNDS - round
  {
    if round >= MAX_ROUNDS || NobodyEligible(Observed(team, k)) then (k, 0)
    else
      var k' := AfterRound(team, round, k);
      if !Changed(Observed(team, k), Observed(team, k')) || k'.board.truncated then (k', 1)
      else var (last, rounds) := LoopFrom(team, round + 1, k'); (last, rounds + 1)
  }

  function ControlNote(rounds: nat): (s: string)
  {
    "Blackboard control: settled after " + Itoa(rounds) + " round(s). Contributors act when the shared "
    + "state makes them eligible, so this path reflects what evidence this run could reach."
  }

  // --- the loop, in place ----------------------------------------------------------------------

  method CountAssessed(hypotheses: seq<Hypothesis>) returns (assessed: nat)
    ensures assessed == AssessedCount(hypotheses)
  {
    assessed := 0;
    for i := 0 to |hypotheses|
      invariant assessed == AssessedCount(hypotheses[..i])
    {
      assert hypotheses[..i + 1][..i] == hypotheses[..i];
      if hypotheses[i].status != PROPOSED {
        assessed := assessed + 1;
      }
    }
    assert hypotheses[..|hypotheses|] == hypotheses;
  }

  method CountPending(active: seq<Domain>, investigated: set<Domain>) returns (pending: nat)
    ensures pending == PendingCount(active, investigated)
  {
    pending := 0;
    for i := 0 to |active|
      invariant pending == PendingCount(active[..i], investigated)
    {
      assert active[..i + 1][..i] == active[..i];
      if active[i] !in investigated {
        pending := pending + 1;
      }
    }
    assert active[..|active|] == active;
  }

  method Observe(team: Team, st: State, investigated: set<Domain>, lastCorrelated: string) returns (s: Sight)
    ensures forall ran :: s == Observed(team, Control(st.View(), investigated, lastCorrelated, ran))
  {
    var assessed := CountAssessed(st.hypotheses);
    var pending := CountPending(team.active, investigated);
    s := Sight(|st.notes|, |st.evidence|, |st.hypotheses|, assessed, !Blank(st.summary), pending,
               EvidenceDigest(st.evidence), lastCorrelated);
  }

  class Loop {
    const team: Team
    const st: State
    var investigated: set<Domain>
    var lastCorrelated: string
    var ran: seq<Role>

    constructor (team: Team, st: State)
      ensures this.team == team && this.st == st
      ensures View() == Control(st.View(), {}, "", [])
    {
      this.team, this.st := team, st;
      investigated, lastCorrelated, ran := {}, "", [];
    }

    function View(): (k': Control)
      reads this, st
    {
      Control(st.View(), investigated, lastCorrelated, ran)
    }

    method Investigate(round: nat)
      modifies this, st
      ensures View() == Contributed(team, round, Investigators, old(View()))
    {
      for i := 0 to |team.active|
        invariant View() == Investigated(team, round, old(View()), i)
      {
        var d := team.active[i];
        if d !in investigated {
          investigated := investigated + {d};
          st.InvestigatorStep(d, true, team.world(round, Investigators, i));
        }
      }
      st.SortNotes(NoteOrder(team.active));
    }

    method Contribute(round: nat, role: Role)
      modifies this, st
      ensures var k := Contributed(team, round, role, old(View())); View() == k.(ran := k.ran + [role])
    {
      match role {
        case Planner => st.PlannerStep(team.world(round, Planner, 0));
        case Investigators => Investigate(round);
        case Correlator =>
          lastCorrelated := EvidenceDigest(st.evidence);
          st.CorrelatorStep(team.world(round, Correlator, 0));
        case Critic => st.CriticStep(team.world(round, Critic, 0));
        case Reporter => st.ReporterStep(team.world(round, Reporter, 0));
      }
      ran := ran + [role];
    }

    method Round(round: nat, before: Sight)
      requires before == Observed(team, View())
      modifies this, st
      ensures View() == AfterRound(team, round, old(View()))
    {
      for i := 0 to |CONTRIBUTORS|
        invariant View() == RoundUpTo(team, round, old(View()), i)
      {
        if Eligible(CONTRIBUTORS[i], before) {
          Contribute(round, CONTRIBUTORS[i]);
        }
      }
    }
  }

  /** One turn of the loop: either it stops here or the rest is the loop from the next round on. */
  lemma LoopUnfolds(team: Team, round: nat, k: Control)
    requires round < MAX_ROUNDS
    ensures var s, k' := Observed(team, k), AfterRound(team, round, k);
            if NobodyEligible(s) then LoopFrom(team, round, k) == (k, 0)
            else if !Changed(s, Observed(team, k')) || k'.board.truncated then LoopFrom(team, round, k) == (k', 1)
            else LoopFrom(team, round, k).0 == LoopFrom(team, round + 1, k').0
                 && LoopFrom(team, round, k).1 == LoopFrom(team, round + 1, k').1 + 1
  {
    hide AfterRound, Observed, NobodyEligible, Changed;
  }

  /** Run. */
  method Run(team: Team, st: State) returns (rounds: nat, ran: seq<Role>)
    modifies st
    ensures var r := LoopFrom(team, 0, Control(old(st.View()), {}, "", []));
            rounds == r.1 && ran == r.0.ran && st.View() == WithNote(r.0.board, ControlNote(rounds))
  {
    hide AfterRound, Observed, Eligible, Changed, ControlNote, WithNote, LoopFrom;
    var loop := new Loop(team, st);
    ghost var start := loop.View();
    ghost var whole := LoopFrom(team, 0, start);
    rounds := 0;
    var round := 0;
    LoopEnds(team, loop.View());
    while round < MAX_ROUNDS
      invariant fresh(loop) && loop.team == team && loop.st == st
      invariant round == rounds <= MAX_ROUNDS
      invariant whole.0 == LoopFrom(team, round, loop.View()).0 && whole.1 == LoopFrom(team, round, loop.View()).1 + rounds
    {
      LoopUnfolds(team, round, loop.View());
      var before := Observe(team, st, loop.investigated, loop.lastCorrelated);
      assert before == Observed(team, loop.View());
      if NobodyEligible(before) {
        ran := loop.ran;
        st.AddNote(ControlNote(rounds));
        return;
      }
      loop.Round(round, before);
      rounds := rounds + 1;
      var after := Observe(team, st, loop.investigated, loop.lastCorrelated);
      assert after == Observed(team, loop.View());
      if !Changed(before, after) || st.truncated {
        ran := loop.ran;
        st.AddNote(ControlNote(rounds));
        return;
      }
      round := round + 1;
    }
    LoopEnds(team, loop.View());
    ran := loop.ran;
    st.AddNote(ControlNote(rounds));
  }

  lemma LoopEnds(team: Team, k: Control)
    ensures LoopFrom(team, MAX_ROUNDS, k) == (k, 0)
  {
  }
}
