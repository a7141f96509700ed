/** What a store is asked to remember and what it tells: the life of one run, from creation to the last reading. */
module RunStories {
  import opened Basics
  import opened GoStrings
  import opened StoreAgreement
  import opened StoreKeys
  import opened StringOrder
  import opened Stores

  /** Steps are appended one after the other. */
  function Appended(m: Local, id: string, list: seq<RunStep>): (m': Local)
  {
    if list == [] then m else MemAppend(Appended(m, id, list[..|list| - 1]), id, list[|list| - 1]).0
  }

  /** `kept` is `list` with a name for every step that had none: its number in the run, from `n + 1` on. */
  ghost predicate Numbered(kept: seq<RunStep>, list: seq<RunStep>, n: nat)
  {
    |kept| == |list|
    && forall i :: 0 <= i < |list| ==>
         kept[i] == (if list[i].id == "" then list[i].(id := "s-" + Itoa(n + i + 1)) else list[i])
  }

  lemma AsMany(kept: seq<RunStep>, list: seq<RunStep>, n: nat)
    requires Numbered(kept, list, n)
    ensures |kept| == |list|
  {
  }

  lemma NumberedSnoc(kept: seq<RunStep>, list: seq<RunStep>, n: nat, step: RunStep)
    requires Numbered(kept, list, n)
    ensures Numbered(kept + [Named(step, n + |list|)], list + [step], n)
  {
    hide Itoa;
  }

  /** Steps are kept in the order in which they came, behind those that were there. */
  lemma {:induction false} StepsAreKept(m: Local, id: string, list: seq<RunStep>)
    requires id in m.runs
    ensures var m', was := Appended(m, id, list), m.runs[id];
            && m'.runs.Keys == m.runs.Keys && (forall other :: other in m.runs && other != id ==> m'.runs[other] == m.runs[other])
            && m'.runs[id] == was.(steps := m'.runs[id].steps)
            && was.steps <= m'.runs[id].steps && Numbered(m'.runs[id].steps[|was.steps|..], list, |was.steps|)
  {
    hide Numbered, Named;
    var n := |m.runs[id].steps|;
    if list == [] {
      NothingNumbered(n);
      assert m.runs[id].steps[n..] == [];
    } else {
      var init, last := list[..|list| - 1], list[|list| - 1];
      StepsAreKept(m, id, init);
      var before, after := Appended(m, id, init).runs[id].steps, Appended(m, id, list).runs[id].steps;
      AsMany(before[n..], init, n);
      NumberedSnoc(before[n..], init, n, last);
      assert init + [last] == list;
      assert after[n..] == before[n..] + [Named(last, n + |init|)];
    }
  }

  lemma NothingNumbered(n: nat)
    ensures Numbered([], [], n)
  {
  }

  /** No two steps that came without a name get the same one. */
  lemma UnnamedStepsDiffer(kept: seq<RunStep>, list: seq<RunStep>, n: nat, i: nat, j: nat)
    requires Numbered(kept, list, n) && i < j < |list| && list[i].id == "" && list[j].id == ""
    ensures kept[i].id != kept[j].id
  {
    var x, y := Itoa(n + i + 1), Itoa(n + j + 1);
    assert Decimal(x) != Decimal(y);
    assert ("s-" + x)[2..] == x && ("s-" + y)[2..] == y;
  }

  /** A run that is created, gets its steps and is finished reads as just that. */
  lemma FinishedRunReads(m: Local, rec: Record, list: seq<RunStep>, report: string, usage: int, at: int)
    requires rec.id !in m.runs
    ensures var done := MemFinish(Appended(MemCreate(m, rec).0, rec.id, list), rec.id, report, usage, at).0;
            var r := MemGet(done, rec.id);
            && r.Ok? && r.value.id == rec.id && r.value.request == rec.request
            && r.value.status == Completed && r.value.report == Some(report) && r.value.usage == usage
            && r.value.finishedAt == at
            && rec.steps <= r.value.steps && Numbered(r.value.steps[|rec.steps|..], list, |rec.steps|)
  {
    hide Numbered;
    StepsAreKept(MemCreate(m, rec).0, rec.id, list);
    hide Appended;
  }

  /** One that fails instead keeps its steps, and tells of the failure in a last one. */
  lemma FailedRunReads(m: Local, rec: Record, list: seq<RunStep>, code: string, message: string, noteAt: int, at: int)
    requires rec.id !in m.runs
    ensures var done := MemFail(Appended(MemCreate(m, rec).0, rec.id, list), rec.id, code, message, noteAt, at).0;
            var r := MemGet(done, rec.id);
            && r.Ok? && r.value.id == rec.id && r.value.request == rec.request
            && r.value.status == Failed && r.value.report == rec.report && r.value.finishedAt == at
            && var steps, n := r.value.steps, |r.value.steps| - 1;
            && n == |rec.steps| + |list| && rec.steps <= steps && Numbered(steps[|rec.steps|..n], list, |rec.steps|)
            && steps[n].kind == "note" && steps[n].code == code && steps[n].err == message && steps[n].at == noteAt
            && steps[n].actor == "service" && steps[n].name == "run failed" && steps[n].id == "s-" + Itoa(n + 1)
  {
    hide Numbered, Itoa;
    var created := MemCreate(m, rec).0;
    StepsAreKept(created, rec.id, list);
    var before := Appended(created, rec.id, list).runs[rec.id].steps;
    AsMany(before[|rec.steps|..], list, |rec.steps|);
    hide Appended;
    var note := Named(FailureNote(code, message, noteAt), |before|);
    assert (before + [note])[|rec.steps|..|before|] == before[|rec.steps|..];
  }

  // --- which runs there are ---------------------------------------------------------------------

  /** The list of runs names each run once, and no other. */
  ghost predicate Listed(m: Local)
  {
    && (forall i, j :: 0 <= i < j < |m.order| ==> m.order[i] != m.order[j])
    && forall id :: id in m.order <==> id in m.runs
  }

  function AllOnLocal(m: Local, ops: seq<Op>): (m': Local)
  {
    if ops == [] then m else OnLocal(AllOnLocal(m, ops[..|ops| - 1]), ops[|ops| - 1]).0
  }

  lemma OperationKeepsList(m: Local, op: Op)
    requires Listed(m)
    ensures Listed(OnLocal(m, op).0) && m.order <= OnLocal(m, op).0.order
  {
    hide Itoa, Named;
  }

  /** Over every history, in the order in which runs were created. */
  lemma {:induction false} RunsAreListed(m: Local, ops: seq<Op>)
    requires Listed(m)
    ensures Listed(AllOnLocal(m, ops)) && m.order <= AllOnLocal(m, ops).order
  {
    hide Listed, OnLocal;
    if ops != [] {
      RunsAreListed(m, ops[..|ops| - 1]);
      OperationKeepsList(AllOnLocal(m, ops[..|ops| - 1]), ops[|ops| - 1]);
    }
  }

  // --- runs that cannot be read -------------------------------------------------------------------

  /**
   * The object store and a run it has no record of: reading and finishing are refused and change nothing, and so
   * is failing, but that leaves the note behind that was to tell of the failure.
   */
  lemma UnknownRunIsRefused(c: Config, o: Remote, id: string, report: string, usage: int, at: int,
                            code: string, message: string, noteAt: int)
    requires RecordKey(c.prefix, id) !in o.objects && Counter(o, id) < MAX_STEPS
    ensures ObjGet(c, o, id) == Err("MAS-6011")
    ensures ObjFinish(c, o, id, report, usage, at) == (o, Some("MAS-6011"))
    ensures var (o', err) := ObjFail(c, o, id, code, message, noteAt, at);
            && err == Some("MAS-6011")
            && o'.objects.Keys == o.objects.Keys + {StepKey(c.prefix, id, Counter(o, id) + 1)}
  {
    hide Itoa, Padded;
    RecordIsNoStep(c.prefix, id);
    var key := StepKey(c.prefix, id, Counter(o, id) + 1);
    assert StepsPrefix(c.prefix, id) <= key;
  }

  /** One step object that cannot be decoded makes a running run unreadable. */
  lemma BrokenStepIsRefused(c: Config, o: Remote, id: string, rec: Record, key: string)
    requires RecordKey(c.prefix, id) in o.objects && c.codec.decodeRecord(o.objects[RecordKey(c.prefix, id)]) == Ok(rec)
    requires rec.status == Running && key in o.objects && StepsPrefix(c.prefix, id) <= key
    requires c.codec.decodeStep(o.objects[key]).Err?
    ensures ObjGet(c, o, id) == Err("MAS-6013")
  {
    hide RecordKey, StepsPrefix;
    var keys := Under(o.objects.Keys, StepsPrefix(c.prefix, id));
    assert key in keys;
    assert key in SortedSet(keys);
    var i :| 0 <= i < |SortedSet(keys)| && SortedSet(keys)[i] == key;
  }
}
