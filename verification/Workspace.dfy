/** The shared working memory of a run and what each diagnostic role may change in it. */
module Workspace {
  import opened Basics
  import opened GoStrings
  import opened Notes

  // --- contents -------------------------------------------------------------------

  datatype Evidence = Evidence(id: string, kind: string, source: string, summary: string, digest: string)

  const PROPOSED := "proposed"
  const SUPPORTED := "supported"
  const REFUTED := "refuted"
  const INCONCLUSIVE := "inconclusive"

  datatype Hypothesis = Hypothesis(
    id: string, statement: string, status: string, confidence: real, supporting: seq<string>,
    contradicting: seq<string>, rationale: string)

  datatype Risk = Low | Medium | High

  datatype Recommendation = Recommendation(
    statement: string, risk: Risk, rationale: string, refs: seq<string>, advisory: bool)

  /** `prior` holds the ids of the deterministic findings the run started from; gaps are given by their codes. */
  datatype Board = Board(
    evidence: seq<Evidence>, hypotheses: seq<Hypothesis>, notes: seq<string>, summary: string,
    recommendations: seq<Recommendation>, hypSeq: nat, truncated: bool, gaps: seq<string>, prior: set<string>)

  // --- accessors, on values -----------------------------------------------------------

  predicate KnownDigest(evidence: seq<Evidence>, digest: string)
  {
    digest != "" && exists i :: 0 <= i < |evidence| && evidence[i].digest == digest
  }

  method FindDigest(evidence: seq<Evidence>, digest: string) returns (found: bool)
    ensures found <==> KnownDigest(evidence, digest)
  {
    for i := 0 to |evidence|
      invariant forall j :: 0 <= j < i ==> evidence[j].digest == "" || evidence[j].digest != digest
    {
      if evidence[i].digest != "" && evidence[i].digest == digest {
        return true;
      }
    }
    return false;
  }

  /** AddEvidence: unnamed evidence and repeats of a digest are ignored. */
  function WithEvidence(evidence: seq<Evidence>, e: Evidence): (out: seq<Evidence>)
  {
    if e.id == "" || KnownDigest(evidence, e.digest) then evidence else evidence + [e]
  }

  function WithAllEvidence(evidence: seq<Evidence>, more: seq<Evidence>): (out: seq<Evidence>)
  {
    if more == [] then evidence
    else WithEvidence(WithAllEvidence(evidence, more[..|more| - 1]), more[|more| - 1])
  }

  function EvidenceLine(e: Evidence): (s: string)
  {
    "- " + e.id + " [" + e.kind + " from " + e.source + "] " + e.summary + "\n"
  }

  function EvidenceLines(evidence: seq<Evidence>): (s: string)
  {
    if evidence == [] then ""
    else EvidenceLines(evidence[..|evidence| - 1]) + EvidenceLine(evidence[|evidence| - 1])
  }

  /** EvidenceDigest: what a prompt shows, and what the control loop compares. */
  function EvidenceDigest(evidence: seq<Evidence>): (s: string)
  {
    if evidence == [] then "(no evidence collected yet)" else EvidenceLines(evidence)
  }

  function KnownRefs(b: Board): (r: set<string>)
  {
    b.prior + set i | 0 <= i < |b.evidence| && b.evidence[i].id != "" :: b.evidence[i].id
  }

  /** resolveRefs: the references that name something this run has. */
  function Resolved(refs: seq<string>, known: set<string>): (out: seq<string>)
  {
    if refs == [] then []
    else
      var id := TrimSpace(refs[|refs| - 1]);
      Resolved(refs[..|refs| - 1], known) + (if id != "" && id in known then [id] else [])
  }

  predicate AllResolve(refs: seq<string>, known: set<string>)
  {
    forall i :: 0 <= i < |refs| ==> Blank(refs[i]) || TrimSpace(refs[i]) in known
  }

  /** What a model proposes, before its references are checked. */
  datatype Proposal = Proposal(
    statement: string, confidence: real, supporting: seq<string>, contradicting: seq<string>, rationale: string)

  function Clamp(v: real): (r: real)
    ensures 0.0 <= r <= 1.0 && (0.0 <= v <= 1.0 ==> r == v)
  {
    if v < 0.0 then 0.0 else if v > 1.0 then 1.0 else v
  }

  /** AddHypothesis: a hypothesis without an id is numbered, and one without a status is proposed. */
  function WithHypothesis(b: Board, id: string, status: string, p: Proposal): (b': Board)
  {
    var known := KnownRefs(b);
    var h := Hypothesis(if id == "" then "h-" + Itoa(b.hypSeq + 1) else id, p.statement,
                        if status == "" then PROPOSED else status, p.confidence,
                        Resolved(p.supporting, known), Resolved(p.contradicting, known), p.rationale);
    b.(hypotheses := b.hypotheses + [h], hypSeq := b.hypSeq + 1,
       gaps := if AllResolve(p.supporting, known) && AllResolve(p.contradicting, known) then b.gaps
               else b.gaps + ["MAS-2010"])
  }

  /** strings.ToLower, as far as it can reach an ASCII letter. */
  function ToLower(s: string): (r: string)
    ensures |r| == |s|
  {
    seq(|s|, i requires 0 <= i < |s| =>
      if 'A' <= s[i] <= 'Z' then (s[i] as int + 32) as char
      else if s[i] == '\U{130}' then 'i'
      else if s[i] == '\U{212a}' then 'k'
      else s[i])
  }

  datatype Assessment = Assessment(id: string, status: string, confidence: real, rationale: string)

  /** What the critic makes of an assessment in its reply: a word that is no verdict counts as none. */
  function Normal(a: Assessment): (r: Assessment)
    ensures r.status != PROPOSED
  {
    var word := ToLower(TrimSpace(a.status));
    a.(status := if word in {SUPPORTED, REFUTED, INCONCLUSIVE} then word else "", confidence := Clamp(a.confidence))
  }

  function Assessed(h: Hypothesis, a: Assessment): (r: Hypothesis)
  {
    h.(status := if a.status != "" then a.status else h.status,
       confidence := if 0.0 <= a.confidence <= 1.0 then a.confidence else h.confidence,
       rationale := if a.rationale != "" then a.rationale else h.rationale)
  }

  /** UpdateHypothesis: the first hypothesis with the id, if there is one. */
  function WithAssessment(hypotheses: seq<Hypothesis>, a: Assessment): (out: seq<Hypothesis>)
  {
    if hypotheses == [] then []
    else if hypotheses[0].id == a.id then [Assessed(hypotheses[0], a)] + hypotheses[1..]
    else [hypotheses[0]] + WithAssessment(hypotheses[1..], a)
  }

  function WithAllAssessments(hypotheses: seq<Hypothesis>, list: seq<Assessment>): (out: seq<Hypothesis>)
  {
    if list == [] then hypotheses
    else
      WithAssessment(WithAllAssessments(hypotheses, list[..|list| - 1]), Normal(list[|list| - 1]))
  }

  function WithAllProposals(b: Board, list: seq<Proposal>): (b': Board)
  {
    if list == [] then b
    else
      var init, last := WithAllProposals(b, list[..|list| - 1]), list[|list| - 1];
      if Blank(last.statement) then init
      else WithHypothesis(init, "", "", last.(confidence := Clamp(last.confidence)))
  }

  /** parseRisk: whatever is not called medium or high is low. */
  function ParsedRisk(v: string): (r: Risk)
  {
    var name := ToLower(TrimSpace(v));
    if name == "high" then High else if name == "medium" || name == "med" then Medium else Low
  }

  datatype Advice = Advice(statement: string, risk: string, rationale: string, refs: seq<string>)

  datatype Report = Report(summary: string, advice: seq<Advice>)

  /** AddRecommendation marks whatever it is given as advice. */
  function WithRecommendation(b: Board, r: Recommendation): (b': Board)
  {
    b.(recommendations := b.recommendations + [r.(advisory := true)])
  }

  function WithAllAdvice(b: Board, list: seq<Advice>): (b': Board)
  {
    if list == [] then b
    else
      var init, a := WithAllAdvice(b, list[..|list| - 1]), list[|list| - 1];
      if Blank(a.statement) then init
      else WithRecommendation(init, Recommendation(a.statement, ParsedRisk(a.risk), a.rationale, a.refs, true))
  }

  function WithGap(b: Board, code: string): (b': Board)
  {
    b.(gaps := b.gaps + [code])
  }

  method Normalize(a: Assessment) returns (r: Assessment)
    ensures r == Normal(a)
  {
    hide ToLower, TrimSpace;
    var word := ToLower(TrimSpace(a.status));
    if word != SUPPORTED && word != REFUTED && word != INCONCLUSIVE {
      word := "";
    }
    return a.(status := word, confidence := Clamp(a.confidence));
  }

  // --- roles -----------------------------------------------------------------------------

  /**
   * What one reasoning loop came to: its last text, the evidence its tools gave, the gaps it left, whether a
   * budget cut it short, and what its reply decodes to for the role that asked (None: not usable).
   */
  datatype Call = Call(
    text: string, gathered: seq<Evidence>, gaps: seq<string>, cut: bool,
    proposals: Option<seq<Proposal>>, assessments: Option<seq<Assessment>>, report: Option<Report>)

  function AfterLoop(b: Board, c: Call): (b': Board)
  {
    b.(evidence := WithAllEvidence(b.evidence, c.gathered), gaps := b.gaps + c.gaps, truncated := b.truncated || c.cut)
  }

  function WithNote(b: Board, note: string): (b': Board)
  {
    if note == "" then b else b.(notes := b.notes + [note])
  }

  function AfterPlanner(b: Board, c: Call): (b': Board)
  {
    var b' := AfterLoop(b, c);
    if Blank(c.text) then b' else WithNote(b', PlanNote(c.text))
  }

  /** Without tools for its domain an investigator leaves a gap without a code, and no more. */
  function AfterIdleInvestigator(b: Board): (b': Board)
  {
    WithGap(b, "")
  }

  function AfterInvestigator(b: Board, d: Domain, c: Call): (b': Board)
  {
    var looped := AfterLoop(b, c);
    if Blank(c.text) then looped else WithNote(looped, FindingsNote(d, c.text))
  }

  function AfterCorrelator(b: Board, c: Call): (b': Board)
  {
    var looped := AfterLoop(b, c);
    if c.proposals.None? then WithGap(looped, "MAS-2004") else WithAllProposals(looped, c.proposals.value)
  }

  function AfterCritic(b: Board, c: Call): (b': Board)
  {
    if b.hypotheses == [] then b
    else
      var looped := AfterLoop(b, c);
      if c.assessments.None? then WithGap(looped, "MAS-2004")
      else looped.(hypotheses := WithAllAssessments(looped.hypotheses, c.assessments.value))
  }

  function AfterReporter(b: Board, c: Call): (b': Board)
  {
    var looped := AfterLoop(b, c);
    match c.report
    case None =>
      var told := WithGap(looped, "MAS-2004");
      if Blank(c.text) then told else told.(summary := TrimSpace(c.text))
    case Some(r) =>
      WithAllAdvice(if Blank(r.summary) then looped else looped.(summary := r.summary), r.advice)
  }

  // --- the state, in place -------------------------------------------------------------------

  class State {
    var evidence: seq<Evidence>
    var hypotheses: seq<Hypothesis>
    var notes: seq<string>
    var summary: string
    var recommendations: seq<Recommendation>
    var hypSeq: nat
    var truncated: bool
    var gaps: seq<string>
    const prior: set<string>

    constructor (prior: set<string>)
      ensures View() == Board([], [], [], "", [], 0, false, [], prior)
    {
      evidence, hypotheses, notes, summary, recommendations := [], [], [], "", [];
      hypSeq, truncated, gaps := 0, false, [];
      this.prior := prior;
    }

    function View(): (b': Board)
      reads this
    {
      Board(evidence, hypotheses, notes, summary, recommendations, hypSeq, truncated, gaps, prior)
    }

    method AddEvidence(e: Evidence)
      modifies this
      ensures View() == old(View()).(evidence := WithEvidence(old(evidence), e))
    {
      if e.id == "" {
        return;
      }
      var repeated := FindDigest(evidence, e.digest);
      if !repeated {
        evidence := evidence + [e];
      }
    }

    method AddNote(note: string)
      modifies this
      ensures View() == WithNote(old(View()), note)
    {
      if note == "" {
        return;
      }
      notes := notes + [note];
    }

    method SetSummary(v: string)
      modifies this
      ensures View() == old(View()).(summary := v)
    {
      summary := v;
    }

    method ResolveRefs(refs: seq<string>, known: set<string>) returns (kept: seq<string>, unresolved: seq<string>)
      ensures kept == Resolved(refs, known)
      ensures unresolved == [] <==> AllResolve(refs, known)
    {
      kept, unresolved := [], [];
      for i := 0 to |refs|
        invariant kept == Resolved(refs[..i], known)
        invariant unresolved == [] <==> AllResolve(refs[..i], known)
      {
        assert refs[..i + 1][..i] == refs[..i];
        var id := TrimSpace(refs[i]);
        if id == "" {
        } else if id in known {
          kept := kept + [id];
        } else {
          unresolved := unresolved + [id];
        }
      }
      assert refs[..|refs|] == refs;
    }

    method AddGap(code: string)
      modifies this
      ensures View() == WithGap(old(View()), code)
    {
      gaps := gaps + [code];
    }

    method AddRecommendation(r: Recommendation)
      modifies this
      ensures View() == WithRecommendation(old(View()), r)
    {
      recommendations := recommendations + [r.(advisory := true)];
    }

    method AddHypothesis(id: string, status: string, p: Proposal)
      modifies this
      ensures View() == WithHypothesis(old(View()), id, status, p)
    {
      hide Resolved, AllResolve, KnownRefs;
      var known := KnownRefs(View());
      var supporting, lost := ResolveRefs(p.supporting, known);
      var contradicting, lost' := ResolveRefs(p.contradicting, known);
      if lost + lost' != [] {
        AddGap("MAS-2010");
      }
      hypSeq := hypSeq + 1;
      var name, state := id, status;
      if name == "" {
        name := "h-" + Itoa(hypSeq);
      }
      if state == "" {
        state := PROPOSED;
      }
      hypotheses := hypotheses + [Hypothesis(name, p.statement, state, p.confidence, supporting, contradicting, p.rationale)];
    }

    method UpdateHypothesis(a: Assessment) returns (found: bool)
      modifies this
      ensures View() == old(View()).(hypotheses := WithAssessment(old(hypotheses), a))
      ensures found <==> exists i :: 0 <= i < |old(hypotheses)| && old(hypotheses)[i].id == a.id
    {
      for i := 0 to |hypotheses|
        invariant View() == old(View())
        invariant forall j :: 0 <= j < i ==> hypotheses[j].id != a.id
        invariant WithAssessment(hypotheses, a) == hypotheses[..i] + WithAssessment(hypotheses[i..], a)
      {
        assert hypotheses[i..][1..] == hypotheses[i + 1..];
        if hypotheses[i].id == a.id {
          assert hypotheses[i := Assessed(hypotheses[i], a)]
              == hypotheses[..i] + ([Assessed(hypotheses[i], a)] + hypotheses[i + 1..]);
          hypotheses := hypotheses[i := Assessed(hypotheses[i], a)];
          return true;
        }
        assert hypotheses[..i] + ([hypotheses[i]] + WithAssessment(hypotheses[i + 1..], a))
            == hypotheses[..i + 1] + WithAssessment(hypotheses[i + 1..], a);
      }
      return false;
    }

    method SortNotes(prefixes: seq<string>)
      modifies this
      ensures View() == old(View()).(notes := SortedNotes(old(notes), prefixes))
    {
      var sorted: seq<string> := [];
      for i := 0 to |notes|
        invariant View() == old(View())
        invariant sorted == SortedNotes(notes[..i], prefixes)
      {
        assert notes[..i + 1][..i] == notes[..i];
        sorted := Placed(sorted, prefixes, notes[i]);
      }
      assert notes[..|notes|] == notes;
      notes := sorted;
    }

    /** What a reasoning loop leaves behind in the state. */
    method RunLoop(c: Call)
      modifies this
      ensures View() == AfterLoop(old(View()), c)
    {
      for i := 0 to |c.gathered|
        invariant View() == old(View()).(evidence := WithAllEvidence(old(evidence), c.gathered[..i]))
      {
        assert c.gathered[..i + 1][..i] == c.gathered[..i];
        AddEvidence(c.gathered[i]);
      }
      assert c.gathered[..|c.gathered|] == c.gathered;
      gaps := gaps + c.gaps;
      if c.cut {
        truncated := true;
      }
    }

    method PlannerStep(c: Call)
      modifies this
      ensures View() == AfterPlanner(old(View()), c)
    {
      RunLoop(c);
      if !Blank(c.text) {
        AddNote(PlanNote(c.text));
      }
    }

    method InvestigatorStep(d: Domain, equipped: bool, c: Call)
      modifies this
      ensures View() == if equipped then AfterInvestigator(old(View()), d, c) else AfterIdleInvestigator(old(View()))
    {
      if !equipped {
        AddGap("");
        return;
      }
      RunLoop(c);
      if !Blank(c.text) {
        AddNote(FindingsNote(d, c.text));
      }
    }

    method CorrelatorStep(c: Call)
      modifies this
      ensures View() == AfterCorrelator(old(View()), c)
    {
      hide WithHypothesis, AfterLoop;
      RunLoop(c);
      if c.proposals.None? {
        AddGap("MAS-2004");
        return;
      }
      var list := c.proposals.value;
      ghost var before := View();
      for i := 0 to |list|
        invariant View() == WithAllProposals(before, list[..i])
      {
        assert list[..i + 1][..i] == list[..i];
        if !Blank(list[i].statement) {
          AddHypothesis("", "", list[i].(confidence := Clamp(list[i].confidence)));
        }
      }
      assert list[..|list|] == list;
    }

    method Assess(list: seq<Assessment>)
      modifies this
      ensures View() == old(View()).(hypotheses := WithAllAssessments(old(hypotheses), list))
    {
      hide WithAssessment, Normal;
      for i := 0 to |list|
        invariant View() == old(View()).(hypotheses := WithAllAssessments(old(hypotheses), list[..i]))
      {
        assert list[..i + 1][..i] == list[..i];
        var a := Normalize(list[i]);
        var _ := UpdateHypothesis(a);
      }
      assert list[..|list|] == list;
    }

    method CriticStep(c: Call)
      modifies this
      ensures View() == AfterCritic(old(View()), c)
    {
      hide AfterLoop, WithAllAssessments;
      if hypotheses == [] {
        return;
      }
      RunLoop(c);
      if c.assessments.None? {
        AddGap("MAS-2004");
        return;
      }
      Assess(c.assessments.value);
    }

    method AddAdvice(list: seq<Advice>)
      modifies this
      ensures View() == WithAllAdvice(old(View()), list)
    {
      for i := 0 to |list|
        invariant View() == WithAllAdvice(old(View()), list[..i])
      {
        assert list[..i + 1][..i] == list[..i];
        var a := list[i];
        if !Blank(a.statement) {
          AddRecommendation(Recommendation(a.statement, ParsedRisk(a.risk), a.rationale, a.refs, true));
        }
      }
      assert list[..|list|] == list;
    }

    method ReporterStep(c: Call)
      modifies this
      ensures View() == AfterReporter(old(View()), c)
    {
      hide WithAllAdvice, WithAllEvidence;
      RunLoop(c);
      match c.report {
        case None =>
          AddGap("MAS-2004");
          if !Blank(c.text) {
            SetSummary(TrimSpace(c.text));
          }
        case Some(r) =>
          if !Blank(r.summary) {
            SetSummary(r.summary);
          }
          AddAdvice(r.advice);
      }
    }
  }
}
