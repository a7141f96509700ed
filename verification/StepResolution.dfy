/** What resolution does to the steps of one playbook. */
module StepResolution {
  import opened Basics
  import opened Packs
  import opened Resolve

  function StepIds(steps: seq<Step>): (ids: seq<string>)
    ensures |ids| == |steps|
    ensures forall i :: 0 <= i < |steps| ==> ids[i] == steps[i].id
  {
    seq(|steps|, i requires 0 <= i < |steps| => steps[i].id)
  }

  // --- which steps stay ---------------------------------------------------------------

  lemma {:induction false} SurvivingMembers(steps: seq<Step>, scope: Scope)
    ensures forall st :: st in Surviving(steps, scope) <==> st in steps && Survives(st, scope)
  {
    hide Survives;
    if steps != [] {
      SurvivingMembers(steps[..|steps| - 1], scope);
      assert steps == steps[..|steps| - 1] + [steps[|steps| - 1]];
    }
  }

  lemma {:induction false} StillBoundMembers(steps: seq<Step>, unbound: set<string>)
    ensures forall st :: st in StillBound(steps, unbound) <==> st in steps && !ReadsUnbound(st, unbound)
  {
    hide ReadsUnbound;
    if steps != [] {
      StillBoundMembers(steps[..|steps| - 1], unbound);
      assert steps == steps[..|steps| - 1] + [steps[|steps| - 1]];
    }
  }

  /** A step stays exactly when it keeps all it names and reads no slot of a lost collect. */
  lemma StepStays(steps: seq<Step>, scope: Scope, st: Step)
    ensures st in ResolvedSteps(steps, scope)
            <==> st in steps && Survives(st, scope) && !ReadsUnbound(st, Unbound(steps, scope))
  {
    SurvivingMembers(steps, scope);
    StillBoundMembers(Surviving(steps, scope), Unbound(steps, scope));
  }

  lemma {:induction false} SurvivingNarrows(steps: seq<Step>, scope: Scope)
    ensures Subsequence(Surviving(steps, scope), steps)
  {
    hide Survives;
    if steps != [] {
      var init, last := steps[..|steps| - 1], steps[|steps| - 1];
      SurvivingNarrows(init, scope);
      var out := Surviving(steps, scope);
      if Survives(last, scope) {
        assert out[..|out| - 1] == Surviving(init, scope);
      } else {
        assert out == Surviving(init, scope);
      }
    }
  }

  lemma {:induction false} StillBoundNarrows(steps: seq<Step>, unbound: set<string>)
    ensures Subsequence(StillBound(steps, unbound), steps)
  {
    hide ReadsUnbound;
    if steps != [] {
      var init, last := steps[..|steps| - 1], steps[|steps| - 1];
      StillBoundNarrows(init, unbound);
      var out := StillBound(steps, unbound);
      if ReadsUnbound(last, unbound) {
        assert out == StillBound(init, unbound);
      } else {
        assert out[..|out| - 1] == StillBound(init, unbound);
      }
    }
  }

  lemma {:induction false} SubsequenceChains<T(!new)>(a: seq<T>, b: seq<T>, c: seq<T>)
    requires Subsequence(a, b) && Subsequence(b, c)
    ensures Subsequence(a, c)
    decreases |c|
  {
    if a != [] {
      assert b != [];
      var bi, ci := b[..|b| - 1], c[..|c| - 1];
      if b[|b| - 1] == c[|c| - 1] && Subsequence(bi, ci) {
        if a[|a| - 1] == b[|b| - 1] && Subsequence(a[..|a| - 1], bi) {
          SubsequenceChains(a[..|a| - 1], bi, ci);
        } else {
          SubsequenceChains(a, bi, ci);
        }
      } else {
        SubsequenceChains(a, b, ci);
      }
    }
  }

  /** Steps are only left out, never added or moved. */
  lemma StepsNarrow(steps: seq<Step>, scope: Scope)
    ensures Subsequence(ResolvedSteps(steps, scope), steps)
  {
    SurvivingNarrows(steps, scope);
    StillBoundNarrows(Surviving(steps, scope), Unbound(steps, scope));
    SubsequenceChains(ResolvedSteps(steps, scope), Surviving(steps, scope), steps);
  }

  // --- the account of the rest ----------------------------------------------------------

  lemma StepIdsSnoc(steps: seq<Step>, st: Step)
    ensures StepIds(steps + [st]) == StepIds(steps) + [st.id]
    ensures multiset(StepIds(steps + [st])) == multiset(StepIds(steps)) + multiset{st.id}
  {
    assert StepIds(steps + [st]) == StepIds(steps) + [st.id];
  }

  /** What is left and what is listed add up to the whole. */
  ghost predicate Conserves(whole: seq<Step>, left: seq<Step>, listed: seq<string>)
  {
    multiset(StepIds(whole)) == multiset(StepIds(left)) + multiset(listed)
  }

  lemma ConservesSnoc(whole: seq<Step>, left: seq<Step>, listed: seq<string>, st: Step)
    requires Conserves(whole, left, listed)
    ensures Conserves(whole + [st], left + [st], listed)
    ensures Conserves(whole + [st], left, listed + [st.id])
  {
    StepIdsSnoc(whole, st);
    StepIdsSnoc(left, st);
  }

  lemma {:induction false} SurvivingConserves(steps: seq<Step>, scope: Scope)
    ensures Conserves(steps, Surviving(steps, scope), LostIds(steps, scope))
  {
    hide Survives;
    if steps != [] {
      hide Conserves;
      var init, last := steps[..|steps| - 1], steps[|steps| - 1];
      SurvivingConserves(init, scope);
      ConservesSnoc(init, Surviving(init, scope), LostIds(init, scope), last);
      assert init + [last] == steps;
      assert Surviving(init, scope) + [] == Surviving(init, scope) && LostIds(init, scope) + [] == LostIds(init, scope);
    }
  }

  lemma {:induction false} StillBoundConserves(steps: seq<Step>, unbound: set<string>)
    ensures Conserves(steps, StillBound(steps, unbound), ReaderIds(steps, unbound))
  {
    hide ReadsUnbound;
    if steps != [] {
      hide Conserves;
      var init, last := steps[..|steps| - 1], steps[|steps| - 1];
      StillBoundConserves(init, unbound);
      ConservesSnoc(init, StillBound(init, unbound), ReaderIds(init, unbound), last);
      assert init + [last] == steps;
      assert StillBound(init, unbound) + [] == StillBound(init, unbound) && ReaderIds(init, unbound) + [] == ReaderIds(init, unbound);
    }
  }

  /** Every step is either still there or listed as dropped, as often as it was declared. */
  lemma StepsConserved(steps: seq<Step>, scope: Scope)
    ensures multiset(StepIds(steps)) == multiset(StepIds(ResolvedSteps(steps, scope))) + multiset(DroppedSteps(steps, scope))
  {
    SurvivingConserves(steps, scope);
    StillBoundConserves(Surviving(steps, scope), Unbound(steps, scope));
  }

  // --- a second pass finds nothing to do ---------------------------------------------------

  lemma {:induction false} AllSurvive(steps: seq<Step>, scope: Scope)
    requires forall st :: st in steps ==> Survives(st, scope)
    ensures Surviving(steps, scope) == steps && LostIds(steps, scope) == []
  {
    hide Survives;
    if steps != [] {
      assert steps[|steps| - 1] in steps;
      AllSurvive(steps[..|steps| - 1], scope);
    }
  }

  lemma SurvivorsStay(steps: seq<Step>, scope: Scope)
    requires forall st :: st in steps ==> Survives(st, scope)
    ensures ResolvedSteps(steps, scope) == steps && DroppedSteps(steps, scope) == []
  {
    AllSurvive(steps, scope);
    assert Unbound(steps, scope) == {};
    NothingUnbound(steps);
  }

  lemma StepsResolveOnce(steps: seq<Step>, scope: Scope)
    ensures var once := ResolvedSteps(steps, scope);
            ResolvedSteps(once, scope) == once && DroppedSteps(once, scope) == []
  {
    var once := ResolvedSteps(steps, scope);
    forall st | st in once ensures Survives(st, scope) {
      StepStays(steps, scope, st);
    }
    SurvivorsStay(once, scope);
  }

  // --- closure -------------------------------------------------------------------------------

  /** A collect reads no slot itself, as the load check guarantees. */
  ghost predicate CollectsReadNothing(steps: seq<Step>)
  {
    forall st :: st in steps && st.collect.Some? ==> st.evaluate == "" && st.conclude.None?
  }

  /** Whatever slot a remaining step reads, every collect that bound the slot remains too. */
  lemma ReadSlotsKeepTheirCollects(steps: seq<Step>, scope: Scope, reader: Step, binder: Step)
    requires CollectsReadNothing(steps)
    requires reader in ResolvedSteps(steps, scope)
    requires binder in steps && binder.collect.Some? && binder.collect.value.slot != ""
    requires binder.collect.value.slot in ReadSet(reader)
    ensures binder in ResolvedSteps(steps, scope)
  {
    var slot := binder.collect.value.slot;
    StepStays(steps, scope, reader);
    StepStays(steps, scope, binder);
    assert slot in ReadSet(reader) * Unbound(steps, scope) ==> false;
    NothingRead(binder);
  }

  lemma NothingRead(st: Step)
    requires st.evaluate == "" && st.conclude.None?
    ensures ReadSet(st) == {}
  {
  }
}
