/** What ends up on the board: of evidence, of citations, of proposals and of advice, and what each role leaves. */
module BoardMeaning {
  import opened GoStrings
  import opened Notes
  import opened Workspace

  // --- evidence ---------------------------------------------------------------------------------

  /** No two pieces of evidence have the same digest, unless it is empty. */
  ghost predicate NoRepeats(evidence: seq<Evidence>)
  {
    forall i, j :: 0 <= i < j < |evidence| && evidence[i].digest == evidence[j].digest ==> evidence[i].digest == ""
  }

  /** `e` has a place in the list, by itself or by one with its digest. */
  ghost predicate Covered(e: Evidence, evidence: seq<Evidence>)
  {
    exists i :: 0 <= i < |evidence| && (evidence[i] == e || (e.digest != "" && evidence[i].digest == e.digest))
  }

  lemma CoveredLater(e: Evidence, evidence: seq<Evidence>, more: seq<Evidence>)
    requires Covered(e, evidence)
    ensures Covered(e, evidence + more)
  {
    var i :| 0 <= i < |evidence| && (evidence[i] == e || (e.digest != "" && evidence[i].digest == e.digest));
    assert (evidence + more)[i] == evidence[i];
  }

  lemma OneMore(evidence: seq<Evidence>, e: Evidence)
    requires NoRepeats(evidence)
    ensures var after := WithEvidence(evidence, e);
            && NoRepeats(after) && (after == evidence || (e.id != "" && after == evidence + [e]))
            && (e.id != "" ==> Covered(e, after))
  {
    if e.id != "" {
      if KnownDigest(evidence, e.digest) {
        var i :| 0 <= i < |evidence| && evidence[i].digest == e.digest;
        assert Covered(e, evidence);
      } else {
        assert (evidence + [e])[|evidence|] == e;
      }
    }
  }

  /** Collected evidence: what was there stays, only named evidence is added, none twice, and none is missing. */
  lemma {:induction false} EvidenceMeaning(evidence: seq<Evidence>, more: seq<Evidence>)
    requires NoRepeats(evidence)
    ensures var after := WithAllEvidence(evidence, more);
            && evidence <= after && NoRepeats(after)
            && (forall i :: |evidence| <= i < |after| ==> after[i].id != "" && after[i] in more)
            && forall e :: e in more && e.id != "" ==> Covered(e, after)
  {
    hide NoRepeats, WithEvidence, Covered;
    if more != [] {
      var init, last := more[..|more| - 1], more[|more| - 1];
      EvidenceMeaning(evidence, init);
      var before, after := WithAllEvidence(evidence, init), WithAllEvidence(evidence, more);
      OneMore(before, last);
      assert more == init + [last];
      forall e | e in more && e.id != "" ensures Covered(e, after) {
        if e in init && after != before {
          CoveredLater(e, before, [last]);
        }
      }
    }
  }

  // --- citations -----------------------------------------------------------------------------------

  /** Some reference names it, white space aside. */
  ghost predicate Cited(r: string, refs: seq<string>)
  {
    exists i :: 0 <= i < |refs| && TrimSpace(refs[i]) == r
  }

  lemma {:induction false} ResolvedMeaning(refs: seq<string>, known: set<string>, r: string)
    ensures r in Resolved(refs, known) <==> r != "" && r in known && Cited(r, refs)
  {
    hide TrimSpace;
    if refs != [] {
      var init, last := refs[..|refs| - 1], refs[|refs| - 1];
      ResolvedMeaning(init, known, r);
      if Cited(r, init) {
        var i :| 0 <= i < |init| && TrimSpace(init[i]) == r;
        assert TrimSpace(refs[i]) == r;
      }
      if Cited(r, refs) && TrimSpace(last) != r {
        var i :| 0 <= i < |refs| && TrimSpace(refs[i]) == r;
        assert TrimSpace(init[i]) == r;
      }
    }
  }

  /** A reference that names nothing the run has. */
  ghost predicate Dangling(refs: seq<string>, known: set<string>)
  {
    exists i :: 0 <= i < |refs| && TrimSpace(refs[i]) != "" && TrimSpace(refs[i]) !in known
  }

  /** What the run has: the findings it started from, and the evidence that has a name. */
  ghost predicate Has(b: Board, r: string)
  {
    r in b.prior || exists i :: 0 <= i < |b.evidence| && b.evidence[i].id == r && r != ""
  }

  /** A hypothesis that was proposed: its words, a confidence in range, and just the citations that name something. */
  ghost predicate Tells(h: Hypothesis, p: Proposal, b: Board)
  {
    && h.statement == p.statement && h.rationale == p.rationale && h.status == "proposed"
    && h.confidence == (if p.confidence < 0.0 then 0.0 else if 1.0 < p.confidence then 1.0 else p.confidence)
    && (forall r :: r in h.supporting <==> r != "" && Has(b, r) && Cited(r, p.supporting))
    && (forall r :: r in h.contradicting <==> r != "" && Has(b, r) && Cited(r, p.contradicting))
  }

  lemma KnownIsHad(b: Board, r: string)
    ensures r in KnownRefs(b) <==> Has(b, r)
  {
  }

  lemma ProposedOne(b: Board, p: Proposal)
    ensures var b' := WithHypothesis(b, "", "", p.(confidence := Clamp(p.confidence)));
            && b' == b.(hypotheses := b'.hypotheses, hypSeq := b.hypSeq + 1, gaps := b'.gaps)
            && |b'.hypotheses| == |b.hypotheses| + 1 && b.hypotheses <= b'.hypotheses
            && Tells(b'.hypotheses[|b.hypotheses|], p, b) && b'.hypotheses[|b.hypotheses|].id == "h-" + Itoa(b.hypSeq + 1)
            && b'.gaps == (if Dangling(p.supporting, KnownRefs(b)) || Dangling(p.contradicting, KnownRefs(b))
                           then b.gaps + ["MAS-2010"] else b.gaps)
  {
    hide Itoa, Resolved, Cited, Has, KnownRefs, TrimSpace;
    var known := KnownRefs(b);
    forall r
      ensures r in Resolved(p.supporting, known) <==> r != "" && Has(b, r) && Cited(r, p.supporting)
      ensures r in Resolved(p.contradicting, known) <==> r != "" && Has(b, r) && Cited(r, p.contradicting)
    {
      ResolvedMeaning(p.supporting, known, r);
      ResolvedMeaning(p.contradicting, known, r);
      KnownIsHad(b, r);
    }
  }

  /** The proposals that say something, in their order. */
  function Stated(list: seq<Proposal>): (out: seq<Proposal>)
  {
    if list == [] then []
    else Stated(list[..|list| - 1]) + (if TrimSpace(list[|list| - 1].statement) == "" then [] else [list[|list| - 1]])
  }

  /** These hypotheses are these proposals, numbered from `n + 1` on. */
  ghost predicate TellAll(hypotheses: seq<Hypothesis>, list: seq<Proposal>, b: Board, n: nat)
  {
    && |hypotheses| == |list|
    && forall i :: 0 <= i < |list| ==> Tells(hypotheses[i], list[i], b) && hypotheses[i].id == "h-" + Itoa(n + i + 1)
  }

  lemma TellOneMore(hypotheses: seq<Hypothesis>, list: seq<Proposal>, b: Board, n: nat, h: Hypothesis, p: Proposal)
    requires TellAll(hypotheses, list, b, n) && Tells(h, p, b) && h.id == "h-" + Itoa(n + |list| + 1)
    ensures TellAll(hypotheses + [h], list + [p], b, n)
  {
    hide Tells, Itoa;
  }

  /** Every proposal that says something becomes a hypothesis, numbered in order, and nothing else does. */
  lemma {:induction false} ProposalsMeaning(b: Board, list: seq<Proposal>)
    ensures var b' := WithAllProposals(b, list);
            && b' == b.(hypotheses := b'.hypotheses, hypSeq := b'.hypSeq, gaps := b'.gaps)
            && b'.hypSeq == b.hypSeq + |Stated(list)| && b.hypotheses <= b'.hypotheses
            && TellAll(b'.hypotheses[|b.hypotheses|..], Stated(list), b, b.hypSeq)
  {
    hide Tells, WithHypothesis, Itoa, TrimSpace, Dangling, TellAll;
    if list == [] {
      NobodyTells(b);
      assert b.hypotheses[|b.hypotheses|..] == [];
    } else {
      var init, last := list[..|list| - 1], list[|list| - 1];
      ProposalsMeaning(b, init);
      if !Blank(last.statement) {
        var was := WithAllProposals(b, init);
        var now := WithAllProposals(b, list);
        ProposedOne(was, last);
        var n, h := |b.hypotheses|, now.hypotheses[|was.hypotheses|];
        SameRefs(b, was, last, h);
        assert now.hypotheses == was.hypotheses + [h];
        assert now.hypotheses[n..] == was.hypotheses[n..] + [h];
        TellOneMore(was.hypotheses[n..], Stated(init), b, b.hypSeq, h, last);
      } else {
        assert Stated(list) == Stated(init);
      }
    }
  }

  lemma NobodyTells(b: Board)
    ensures TellAll([], [], b, b.hypSeq)
  {
  }

  lemma SameRefs(b: Board, was: Board, p: Proposal, h: Hypothesis)
    requires was.prior == b.prior && was.evidence == b.evidence && Tells(h, p, was)
    ensures Tells(h, p, b)
  {
    hide Cited;
    assert forall r :: Has(was, r) <==> Has(b, r);
  }

  // --- advice --------------------------------------------------------------------------------------------

  function Given(list: seq<Advice>): (out: seq<Advice>)
  {
    if list == [] then []
    else Given(list[..|list| - 1]) + (if TrimSpace(list[|list| - 1].statement) == "" then [] else [list[|list| - 1]])
  }

  /** Advice for a person: never more than advice, and as risky as it says. */
  ghost predicate Advises(r: Recommendation, a: Advice)
  {
    && r.statement == a.statement && r.rationale == a.rationale && r.refs == a.refs && r.advisory
    && (r.risk == High <==> ToLower(TrimSpace(a.risk)) == "high")
    && (r.risk == Medium <==> ToLower(TrimSpace(a.risk)) in {"medium", "med"})
  }

  lemma RiskMeaning(a: Advice)
    ensures Advises(Recommendation(a.statement, ParsedRisk(a.risk), a.rationale, a.refs, true), a)
  {
    hide ToLower, TrimSpace;
  }

  lemma {:induction false} AdviceMeaning(b: Board, list: seq<Advice>)
    ensures var b' := WithAllAdvice(b, list);
            && b' == b.(recommendations := b'.recommendations)
            && b.recommendations <= b'.recommendations && |b'.recommendations| == |b.recommendations| + |Given(list)|
            && forall i :: 0 <= i < |Given(list)| ==> Advises(b'.recommendations[|b.recommendations| + i], Given(list)[i])
  {
    hide Advises, ParsedRisk, TrimSpace;
    if list != [] {
      AdviceMeaning(b, list[..|list| - 1]);
      RiskMeaning(list[|list| - 1]);
    }
  }

  // --- roles -------------------------------------------------------------------------------------------------

  /** What every loop leaves, whoever ran it. */
  ghost predicate Looped(b': Board, b: Board, c: Call)
  {
    && b'.evidence == WithAllEvidence(b.evidence, c.gathered) && b'.prior == b.prior
    && (b'.truncated <==> b.truncated || c.cut)
  }

  lemma NotesMeaning(b: Board, d: Domain, c: Call)
    ensures var p, i := AfterPlanner(b, c), AfterInvestigator(b, d, c);
            && Looped(p, b, c) && Looped(i, b, c) && p.gaps == i.gaps == b.gaps + c.gaps
            && p.notes == (if TrimSpace(c.text) == "" then b.notes else b.notes + [PlanNote(c.text)])
            && i.notes == (if TrimSpace(c.text) == "" then b.notes else b.notes + [FindingsNote(d, c.text)])
            && p == b.(evidence := p.evidence, gaps := p.gaps, notes := p.notes, truncated := p.truncated)
            && i == b.(evidence := i.evidence, gaps := i.gaps, notes := i.notes, truncated := i.truncated)
  {
    hide WithAllEvidence, TrimSpace;
  }

  /** A reply that does not decode leaves MAS-2004 and nothing of itself; one that does leaves its proposals. */
  lemma CorrelatorMeaning(b: Board, c: Call)
    ensures var b' := AfterCorrelator(b, c);
            && Looped(b', b, c) && b'.notes == b.notes && b'.summary == b.summary && b'.recommendations == b.recommendations
            && (c.proposals.None? ==> b'.hypotheses == b.hypotheses && b'.gaps == b.gaps + c.gaps + ["MAS-2004"])
            && (c.proposals.Some? ==>
                  && b.hypotheses <= b'.hypotheses
                  && TellAll(b'.hypotheses[|b.hypotheses|..], Stated(c.proposals.value), AfterLoop(b, c), b.hypSeq))
  {
    hide WithAllEvidence, Stated, WithAllProposals, TellAll;
    if c.proposals.Some? {
      ProposalsMeaning(AfterLoop(b, c), c.proposals.value);
    }
  }

  lemma CriticMeaning(b: Board, c: Call)
    ensures var b' := AfterCritic(b, c);
            && (b.hypotheses == [] ==> b' == b)
            && (b.hypotheses != [] ==>
                  && Looped(b', b, c) && b' == b.(evidence := b'.evidence, hypotheses := b'.hypotheses, gaps := b'.gaps,
                                                  truncated := b'.truncated)
                  && (c.assessments.None? ==> b'.hypotheses == b.hypotheses && b'.gaps == b.gaps + c.gaps + ["MAS-2004"])
                  && (c.assessments.Some? ==> b'.gaps == b.gaps + c.gaps))
  {
    hide WithAllEvidence, WithAllAssessments;
  }

  lemma ReporterMeaning(b: Board, c: Call)
    ensures var b' := AfterReporter(b, c);
            && Looped(b', b, c) && b'.hypotheses == b.hypotheses && b'.notes == b.notes
            && (c.report.None? ==>
                  && b'.gaps == b.gaps + c.gaps + ["MAS-2004"] && b'.recommendations == b.recommendations
                  && b'.summary == (if TrimSpace(c.text) == "" then b.summary else TrimSpace(c.text)))
            && (c.report.Some? ==>
                  var r := c.report.value;
                  && b'.gaps == b.gaps + c.gaps
                  && b'.summary == (if TrimSpace(r.summary) == "" then b.summary else r.summary)
                  && |b'.recommendations| == |b.recommendations| + |Given(r.advice)|
                  && forall i :: 0 <= i < |Given(r.advice)| ==>
                       Advises(b'.recommendations[|b.recommendations| + i], Given(r.advice)[i]))
  {
    hide WithAllEvidence, TrimSpace, Given, Advises, WithAllAdvice;
    if c.report.Some? {
      var r, looped := c.report.value, AfterLoop(b, c);
      AdviceMeaning(if Blank(r.summary) then looped else looped.(summary := r.summary), r.advice);
    }
  }
}
