/** What a critic's reply makes of the hypotheses it is about. */
module Critique {
  import opened GoStrings
  import opened Workspace

  ghost predicate Distinct(hypotheses: seq<Hypothesis>)
  {
    forall i, j :: 0 <= i < j < |hypotheses| ==> hypotheses[i].id != hypotheses[j].id
  }

  lemma {:induction false} AssessmentKeepsIds(hypotheses: seq<Hypothesis>, a: Assessment)
    ensures var after := WithAssessment(hypotheses, a);
            |after| == |hypotheses| && forall i :: 0 <= i < |after| ==> after[i].id == hypotheses[i].id
  {
    if hypotheses != [] {
      AssessmentKeepsIds(hypotheses[1..], a);
    }
  }

  lemma {:induction false} AssessmentsKeepIds(hypotheses: seq<Hypothesis>, list: seq<Assessment>)
    ensures var after := WithAllAssessments(hypotheses, list);
            |after| == |hypotheses| && forall i :: 0 <= i < |after| ==> after[i].id == hypotheses[i].id
  {
    if list != [] {
      AssessmentsKeepIds(hypotheses, list[..|list| - 1]);
      AssessmentKeepsIds(WithAllAssessments(hypotheses, list[..|list| - 1]), Normal(list[|list| - 1]));
    }
  }

  // --- verdicts ---------------------------------------------------------------------------------

  /** The word, trimmed and in lower case, is one of the three a critic may give. */
  predicate IsVerdict(a: Assessment)
  {
    ToLower(TrimSpace(a.status)) in {"supported", "refuted", "inconclusive"}
  }

  /** The reply gives a verdict on the hypothesis with the id. */
  ghost predicate Judges(list: seq<Assessment>, id: string)
  {
    exists j :: 0 <= j < |list| && list[j].id == id && IsVerdict(list[j])
  }

  lemma {:induction false} OneAssessment(hypotheses: seq<Hypothesis>, a: Assessment, i: nat)
    requires Distinct(hypotheses) && i < |hypotheses|
    ensures |WithAssessment(hypotheses, a)| == |hypotheses|
    ensures WithAssessment(hypotheses, a)[i] == if hypotheses[i].id == a.id then Assessed(hypotheses[i], a) else hypotheses[i]
  {
    AssessmentKeepsIds(hypotheses, a);
    if i > 0 {
      if hypotheses[0].id != a.id {
        OneAssessment(hypotheses[1..], a, i - 1);
      } else {
        assert hypotheses[0].id != hypotheses[i].id;
      }
    }
  }

  /** A hypothesis stays proposed exactly when the reply gives no verdict on it. */
  lemma {:induction false} StaysProposed(hypotheses: seq<Hypothesis>, list: seq<Assessment>, i: nat)
    requires Distinct(hypotheses) && i < |hypotheses|
    ensures |WithAllAssessments(hypotheses, list)| == |hypotheses|
    ensures WithAllAssessments(hypotheses, list)[i].status == PROPOSED
       <==> hypotheses[i].status == PROPOSED && !Judges(list, hypotheses[i].id)
  {
    AssessmentsKeepIds(hypotheses, list);
    if list != [] {
      var init := list[..|list| - 1];
      AssessmentsKeepIds(hypotheses, init);
      StaysProposed(hypotheses, init, i);
      OneAssessment(WithAllAssessments(hypotheses, init), Normal(list[|list| - 1]), i);
      JudgesSnoc(list, hypotheses[i].id);
    }
  }

  lemma JudgesSnoc(list: seq<Assessment>, id: string)
    requires list != []
    ensures var init, a := list[..|list| - 1], list[|list| - 1];
            Judges(list, id) <==> Judges(init, id) || (a.id == id && IsVerdict(a))
  {
    var init, a := list[..|list| - 1], list[|list| - 1];
    if Judges(init, id) {
      var j :| 0 <= j < |init| && init[j].id == id && IsVerdict(init[j]);
      assert list[j] == init[j];
    }
    if Judges(list, id) {
      var j :| 0 <= j < |list| && list[j].id == id && IsVerdict(list[j]);
      assert j < |init| ==> init[j] == list[j];
    }
  }

  // --- all that a reply changes ------------------------------------------------------------------------

  function About(id: string): (p: Assessment -> bool)
  {
    (a: Assessment) => a.id == id
  }

  function Judging(id: string): (p: Assessment -> bool)
  {
    (a: Assessment) => a.id == id && IsVerdict(a)
  }

  function Explaining(id: string): (p: Assessment -> bool)
  {
    (a: Assessment) => a.id == id && a.rationale != ""
  }

  /** The last assessment of the reply of which `p` holds. */
  ghost predicate Last(list: seq<Assessment>, p: Assessment -> bool, j: int)
  {
    0 <= j < |list| && p(list[j]) && forall k :: j < k < |list| ==> !p(list[k])
  }

  ghost predicate Never(list: seq<Assessment>, p: Assessment -> bool)
  {
    forall j :: 0 <= j < |list| ==> !p(list[j])
  }

  lemma LastSnoc(list: seq<Assessment>, p: Assessment -> bool)
    requires list != []
    ensures var init, a := list[..|list| - 1], list[|list| - 1];
            if p(a) then forall j :: Last(list, p, j) <==> j == |list| - 1
            else (Never(list, p) <==> Never(init, p)) && forall j :: Last(list, p, j) <==> Last(init, p, j)
    ensures p(list[|list| - 1]) ==> !Never(list, p)
  {
    var init, a := list[..|list| - 1], list[|list| - 1];
    assert forall j :: 0 <= j < |init| ==> list[j] == init[j];
  }

  /** What `list` makes of a hypothesis, said of the last assessment that has something to say. */
  ghost predicate Follows(h': Hypothesis, h: Hypothesis, list: seq<Assessment>)
  {
    && h' == h.(status := h'.status, confidence := h'.confidence, rationale := h'.rationale)
    && (forall j :: Last(list, Judging(h.id), j) ==> h'.status == ToLower(TrimSpace(list[j].status)))
    && (Never(list, Judging(h.id)) ==> h'.status == h.status)
    && (forall j :: Last(list, About(h.id), j) ==>
          (h'.confidence == if list[j].confidence < 0.0 then 0.0 else if 1.0 < list[j].confidence then 1.0
                            else list[j].confidence))
    && (Never(list, About(h.id)) ==> h'.confidence == h.confidence)
    && (forall j :: Last(list, Explaining(h.id), j) ==> h'.rationale == list[j].rationale)
    && (Never(list, Explaining(h.id)) ==> h'.rationale == h.rationale)
  }

  lemma FollowsSnoc(h: Hypothesis, was: Hypothesis, list: seq<Assessment>)
    requires list != [] && Follows(was, h, list[..|list| - 1])
    ensures var a := list[|list| - 1]; Follows(if h.id == a.id then Assessed(was, Normal(a)) else was, h, list)
  {
    hide Last, Never, ToLower, TrimSpace;
    LastSnoc(list, Judging(h.id));
    LastSnoc(list, About(h.id));
    LastSnoc(list, Explaining(h.id));
    var init := list[..|list| - 1];
    forall p, j | Last(init, p, j) ensures 0 <= j < |init| && init[j] == list[j] {
      LastIsIn(init, p, j);
    }
  }

  lemma LastIsIn(list: seq<Assessment>, p: Assessment -> bool, j: int)
    requires Last(list, p, j)
    ensures 0 <= j < |list|
  {
  }

  /**
   * Where hypotheses have ids of their own: each takes its status from the last assessment of its id that gives a
   * verdict, its confidence, kept between 0 and 1, from the last one of its id, its rationale from the last one
   * that has any, and keeps all the rest.
   */
  lemma {:induction false} AssessmentsMean(hypotheses: seq<Hypothesis>, list: seq<Assessment>, i: nat)
    requires Distinct(hypotheses) && i < |hypotheses|
    ensures |WithAllAssessments(hypotheses, list)| == |hypotheses|
    ensures Follows(WithAllAssessments(hypotheses, list)[i], hypotheses[i], list)
  {
    AssessmentsKeepIds(hypotheses, list);
    if list == [] {
    } else {
      hide Follows, Normal;
      var init := list[..|list| - 1];
      AssessmentsKeepIds(hypotheses, init);
      AssessmentsMean(hypotheses, init, i);
      OneAssessment(WithAllAssessments(hypotheses, init), Normal(list[|list| - 1]), i);
      FollowsSnoc(hypotheses[i], WithAllAssessments(hypotheses, init)[i], list);
      NormalKeepsId(list[|list| - 1]);
    }
  }

  lemma NormalKeepsId(a: Assessment)
    ensures Normal(a).id == a.id
  {
  }

  /** The critic's step, on the board as it finds it. */
  lemma CriticFollows(b: Board, c: Call, i: nat)
    requires Distinct(b.hypotheses) && i < |b.hypotheses| && c.assessments.Some?
    ensures |AfterCritic(b, c).hypotheses| == |b.hypotheses|
    ensures Follows(AfterCritic(b, c).hypotheses[i], b.hypotheses[i], c.assessments.value)
  {
    hide Follows, WithAllAssessments;
    AssessmentsMean(b.hypotheses, c.assessments.value, i);
  }
}
