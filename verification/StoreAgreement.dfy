/** The object store is indistinguishable from the in-memory store over every allowed history. */
module StoreAgreement {
  import opened Basics
  import opened GoStrings
  import opened StringOrder
  import opened StoreKeys
  import opened Stores

  // --- histories ---------------------------------------------------------------------

  datatype Op =
    | Create(rec: Record)
    | Append(id: string, step: RunStep)
    | Finish(id: string, report: string, usage: int, at: int)
    | Fail(id: string, code: string, message: string, noteAt: int, at: int)
    | Get(id: string)

  datatype Reply = Done(err: Option<string>) | Got(result: Result<Record>)

  function OnLocal(m: Local, op: Op): (r: (Local, Reply))
  {
    match op
    case Create(rec) => var (m', e) := MemCreate(m, rec); (m', Done(e))
    case Append(id, step) => var (m', e) := MemAppend(m, id, step); (m', Done(e))
    case Finish(id, report, usage, at) => var (m', e) := MemFinish(m, id, report, usage, at); (m', Done(e))
    case Fail(id, code, message, noteAt, at) => var (m', e) := MemFail(m, id, code, message, noteAt, at); (m', Done(e))
    case Get(id) => (m, Got(MemGet(m, id)))
  }

  ghost function OnRemote(c: Config, o: Remote, op: Op): (r: (Remote, Reply))
  {
    match op
    case Create(rec) => (ObjCreate(c, o, rec), Done(None))
    case Append(id, step) => var (o', e) := ObjAppend(c, o, id, step); (o', Done(e))
    case Finish(id, report, usage, at) => var (o', e) := ObjFinish(c, o, id, report, usage, at); (o', Done(e))
    case Fail(id, code, message, noteAt, at) => var (o', e) := ObjFail(c, o, id, code, message, noteAt, at); (o', Done(e))
    case Get(id) => (o, Got(ObjGet(c, o, id)))
  }

  /** A run is created once, without steps, grows while it is running, and ends once. */
  predicate Allowed(m: Local, op: Op)
  {
    match op
    case Create(rec) => PlainId(rec.id) && rec.id !in m.runs && rec.steps == [] && rec.status == Running
    case Append(id, _) => id in m.runs && m.runs[id].status == Running && |m.runs[id].steps| < MAX_STEPS
    case Finish(id, _, _, _) => id in m.runs && m.runs[id].status == Running
    case Fail(id, _, _, _, _) => id in m.runs && m.runs[id].status == Running && |m.runs[id].steps| < MAX_STEPS
    case Get(id) => PlainId(id)
  }

  predicate AllAllowed(m: Local, ops: seq<Op>)
    decreases |ops|
  {
    ops == [] || (Allowed(m, ops[0]) && AllAllowed(OnLocal(m, ops[0]).0, ops[1..]))
  }

  function LocalReplies(m: Local, ops: seq<Op>): (out: seq<Reply>)
    decreases |ops|
  {
    if ops == [] then []
    else var (m', r) := OnLocal(m, ops[0]); [r] + LocalReplies(m', ops[1..])
  }

  ghost function RemoteReplies(c: Config, o: Remote, ops: seq<Op>): (out: seq<Reply>)
    decreases |ops|
  {
    if ops == [] then []
    else var (o', r) := OnRemote(c, o, ops[0]); [r] + RemoteReplies(c, o', ops[1..])
  }

  ghost function RemoteAfter(c: Config, o: Remote, ops: seq<Op>): (r: Remote)
    decreases |ops|
  {
    if ops == [] then o else RemoteAfter(c, OnRemote(c, o, ops[0]).0, ops[1..])
  }

  /** Equal replies; a run that does not exist is an error on both sides, under each store's own code. */
  predicate SameReply(a: Reply, b: Reply)
  {
    a == b || (a.Got? && b.Got? && a.result.Err? && b.result.Err?)
  }

  // --- how the bucket represents the runs -----------------------------------------------

  function StoredRecord(r: Record): (out: Record)
  {
    if r.status == Running then r.(steps := []) else r
  }

  ghost predicate RunStored(c: Config, o: Remote, r: Record)
  {
    && |r.steps| <= MAX_STEPS && Counter(o, r.id) == |r.steps|
    && Holds(o, RecordKey(c.prefix, r.id), c.codec.encodeRecord(StoredRecord(r)))
    && forall n :: 1 <= n <= |r.steps| ==> Holds(o, StepKey(c.prefix, r.id, n), c.codec.encodeStep(r.steps[n - 1]))
  }

  predicate Holds(o: Remote, key: string, blob: string)
  {
    key in o.objects && o.objects[key] == blob
  }

  /** A key some run has a reason to own. */
  ghost predicate Owned(c: Config, m: Local, key: string)
  {
    exists id :: id in m.runs && OwnedBy(c, m.runs[id], key)
  }

  ghost predicate OwnedBy(c: Config, r: Record, key: string)
  {
    key == RecordKey(c.prefix, r.id) || IsStepKey(c, r.id, |r.steps|, key)
  }

  ghost predicate IsStepKey(c: Config, id: string, max: nat, key: string)
  {
    exists n: nat :: 1 <= n <= max && key == StepKey(c.prefix, id, n)
  }

  ghost predicate IsRecordKey(c: Config, key: string)
  {
    exists id :: key == RecordKey(c.prefix, id)
  }

  /** Only record keys are ever put again. */
  ghost predicate StepsPutOnce(c: Config, puts: seq<string>)
  {
    forall i, j :: 0 <= i < j < |puts| && puts[i] == puts[j] ==> IsRecordKey(c, puts[i])
  }

  ghost predicate Represents(c: Config, o: Remote, m: Local)
  {
    && (forall id :: id in m.runs ==> PlainId(id) && m.runs[id].id == id && RunStored(c, o, m.runs[id]))
    && (forall id :: id in o.steps ==> id in m.runs)
    && (forall key :: key in o.objects ==> Owned(c, m, key))
    && (forall key :: key in o.puts ==> key in o.objects)
    && StepsPutOnce(c, o.puts)
  }

  // --- keys never collide -----------------------------------------------------------------

  lemma StepKeysDiffer(c: Config, id: string, m: nat, other: string, n: nat)
    requires PlainId(id) && PlainId(other) && m <= MAX_STEPS && n <= MAX_STEPS
    requires StepKey(c.prefix, id, m) == StepKey(c.prefix, other, n)
    ensures id == other && m == n
  {
    hide Padded, Itoa, Less, RunPrefix;
    var key := StepKey(c.prefix, other, n);
    var rest := "steps/" + Padded(Itoa(n), 4) + ".json";
    assert key == RunPrefix(c.prefix, other) + rest;
    assert StepKey(c.prefix, id, m) == RunPrefix(c.prefix, id) + ("steps/" + Padded(Itoa(m), 4) + ".json");
    RunPrefixesDiffer(c.prefix, id, other, rest);
    if m < n {
      StepKeysIncrease(c.prefix, id, m, n);
      LessIsIrreflexive(key);
    } else if n < m {
      StepKeysIncrease(c.prefix, id, n, m);
      LessIsIrreflexive(key);
    }
  }

  lemma RecordKeysDiffer(c: Config, id: string, other: string)
    requires PlainId(id) && PlainId(other) && RecordKey(c.prefix, id) == RecordKey(c.prefix, other)
    ensures id == other
  {
    RunPrefixesDiffer(c.prefix, id, other, "record.json");
  }

  lemma UnderOwnSteps(c: Config, id: string, other: string)
    requires PlainId(id) && PlainId(other)
    ensures !(StepsPrefix(c.prefix, id) <= RecordKey(c.prefix, other))
  {
    if StepsPrefix(c.prefix, id) <= RecordKey(c.prefix, other) {
      var key := RecordKey(c.prefix, other);
      assert RunPrefix(c.prefix, id) <= StepsPrefix(c.prefix, id);
      assert RunPrefix(c.prefix, id) <= key;
      RunPrefixesDiffer(c.prefix, id, other, "record.json");
      RecordIsNoStep(c.prefix, id);
    }
  }

  lemma StepIsUnderItsRun(c: Config, id: string, other: string, n: nat)
    requires PlainId(id) && PlainId(other)
    ensures StepsPrefix(c.prefix, id) <= StepKey(c.prefix, other, n) <==> id == other
  {
    var rest := "steps/" + Padded(Itoa(n), 4) + ".json";
    assert StepKey(c.prefix, other, n) == RunPrefix(c.prefix, other) + rest;
    if StepsPrefix(c.prefix, id) <= StepKey(c.prefix, other, n) {
      assert RunPrefix(c.prefix, id) <= StepsPrefix(c.prefix, id);
      RunPrefixesDiffer(c.prefix, id, other, rest);
    }
    if id == other {
      assert StepKey(c.prefix, id, n) == StepsPrefix(c.prefix, id) + (Padded(Itoa(n), 4) + ".json");
    }
  }

  lemma StepIsNoRecord(c: Config, id: string, n: nat, other: string)
    requires PlainId(id) && PlainId(other)
    ensures StepKey(c.prefix, id, n) != RecordKey(c.prefix, other)
  {
    StepIsUnderItsRun(c, id, id, n);
    UnderOwnSteps(c, id, other);
  }

  // --- reading back -------------------------------------------------------------------------

  function StepKeyList(c: Config, id: string, n: nat): (keys: seq<string>)
    ensures |keys| == n && forall i :: 0 <= i < n ==> keys[i] == StepKey(c.prefix, id, i + 1)
  {
    seq(n, i requires 0 <= i < n => StepKey(c.prefix, id, i + 1))
  }

  lemma ListedSteps(c: Config, o: Remote, m: Local, id: string)
    requires Represents(c, o, m) && id in m.runs
    ensures SortedSet(Under(o.objects.Keys, StepsPrefix(c.prefix, id))) == StepKeyList(c, id, |m.runs[id].steps|)
  {
    var listed := Under(o.objects.Keys, StepsPrefix(c.prefix, id));
    var keys := StepKeyList(c, id, |m.runs[id].steps|);
    StepKeyListIncreases(c, id, |m.runs[id].steps|);
    hide StepKey, RecordKey, StepsPrefix, StepKeyList, Increasing, SortedSet;
    forall key ensures key in keys <==> key in listed {
      InStepKeyList(c, id, |m.runs[id].steps|, key);
      if key in keys {
        OwnStepIsListed(c, o, m, id, key);
      }
      if key in listed {
        ListedIsOwnStep(c, o, m, id, key);
      }
    }
    IncreasingIsUnique(SortedSet(listed), keys);
  }

  lemma StepKeyListIncreases(c: Config, id: string, n: nat)
    requires n <= MAX_STEPS
    ensures Increasing(StepKeyList(c, id, n))
  {
    hide StepKey;
    var keys := StepKeyList(c, id, n);
    forall i, j | 0 <= i < j < |keys| ensures Less(keys[i], keys[j]) {
      StepKeysIncrease(c.prefix, id, i + 1, j + 1);
    }
  }

  lemma InStepKeyList(c: Config, id: string, n: nat, key: string)
    ensures key in StepKeyList(c, id, n) <==> IsStepKey(c, id, n, key)
  {
    hide StepKey;
    var keys := StepKeyList(c, id, n);
    if IsStepKey(c, id, n, key) {
      var k: nat :| 1 <= k <= n && key == StepKey(c.prefix, id, k);
      assert keys[k - 1] == key;
    }
  }

  lemma OwnStepIsListed(c: Config, o: Remote, m: Local, id: string, key: string)
    requires Represents(c, o, m) && id in m.runs && IsStepKey(c, id, |m.runs[id].steps|, key)
    ensures key in o.objects && StepsPrefix(c.prefix, id) <= key
  {
    hide StepKey, RecordKey, StepsPrefix, Owned;
    var r := m.runs[id];
    var n: nat :| 1 <= n <= |r.steps| && key == StepKey(c.prefix, id, n);
    assert Holds(o, StepKey(c.prefix, id, n), c.codec.encodeStep(r.steps[n - 1]));
    StepIsUnderItsRun(c, id, id, n);
  }

  lemma ListedIsOwnStep(c: Config, o: Remote, m: Local, id: string, key: string)
    requires Represents(c, o, m) && id in m.runs
    requires key in o.objects && StepsPrefix(c.prefix, id) <= key
    ensures IsStepKey(c, id, |m.runs[id].steps|, key)
  {
    hide StepKey, RecordKey, StepsPrefix;
    assert Owned(c, m, key);
    var other :| other in m.runs && OwnedBy(c, m.runs[other], key);
    if key == RecordKey(c.prefix, other) {
      UnderOwnSteps(c, id, other);
      assert false;
    } else {
      var n: nat :| 1 <= n <= |m.runs[other].steps| && key == StepKey(c.prefix, other, n);
      StepIsUnderItsRun(c, id, other, n);
    }
  }

  lemma StepReadsBack(c: Config, o: Remote, m: Local, id: string, i: nat)
    requires RoundTrips(c.codec) && Represents(c, o, m) && id in m.runs && i < |m.runs[id].steps|
    ensures var key := StepKey(c.prefix, id, i + 1);
            key in o.objects && c.codec.decodeStep(o.objects[key]) == Ok(m.runs[id].steps[i])
  {
    hide StepKey, RecordKey, Counter, Owned, StepsPutOnce;
    var r := m.runs[id];
    assert RunStored(c, o, r);
    assert Holds(o, StepKey(c.prefix, r.id, i + 1), c.codec.encodeStep(r.steps[i + 1 - 1]));
    assert c.codec.decodeStep(c.codec.encodeStep(r.steps[i])) == Ok(r.steps[i]);
  }

  lemma DecodedIs(c: Codec, objects: map<string, string>, keys: seq<string>, steps: seq<RunStep>)
    requires |keys| == |steps| && forall i :: 0 <= i < |keys| ==> keys[i] in objects
    requires forall i :: 0 <= i < |keys| ==> c.decodeStep(objects[keys[i]]) == Ok(steps[i])
    ensures Decoded(c, objects, keys) == Ok(steps)
  {
    assert Decoded(c, objects, keys).value == steps;
  }

  lemma StepsReadBack(c: Config, o: Remote, m: Local, id: string)
    requires RoundTrips(c.codec) && Represents(c, o, m) && id in m.runs
    ensures StepsOf(c, o, id) == Ok(m.runs[id].steps)
  {
    ListedSteps(c, o, m, id);
    hide StepKey, StepsPrefix, SortedSet, Under, Represents, RoundTrips;
    var steps := m.runs[id].steps;
    var keys := StepKeyList(c, id, |steps|);
    forall i | 0 <= i < |keys| ensures keys[i] in o.objects && c.codec.decodeStep(o.objects[keys[i]]) == Ok(steps[i]) {
      StepReadsBack(c, o, m, id, i);
    }
    DecodedIs(c.codec, o.objects, keys, steps);
  }

  /** Whatever is in the bucket reads back as the run the in-memory store holds. */
  lemma GetAgrees(c: Config, o: Remote, m: Local, id: string)
    requires RoundTrips(c.codec) && Represents(c, o, m) && id in m.runs
    ensures ObjGet(c, o, id) == Ok(m.runs[id])
  {
    hide StepKey, RecordKey, StepsPrefix, Counter, StepsOf, Owned, StepsPutOnce;
    var r := m.runs[id];
    assert c.codec.decodeRecord(c.codec.encodeRecord(StoredRecord(r))) == Ok(StoredRecord(r));
    assert Holds(o, RecordKey(c.prefix, id), c.codec.encodeRecord(StoredRecord(r)));
    if r.status == Running {
      StepsReadBack(c, o, m, id);
      assert r.steps == [] ==> r == r.(steps := []);
    }
  }

  lemma GetMissing(c: Config, o: Remote, m: Local, id: string)
    requires Represents(c, o, m) && PlainId(id) && id !in m.runs
    ensures ObjGet(c, o, id).Err?
  {
    hide StepKey, RecordKey;
    var key := RecordKey(c.prefix, id);
    if key in o.objects {
      assert Owned(c, m, key);
      var other :| other in m.runs && OwnedBy(c, m.runs[other], key);
      if key == RecordKey(c.prefix, other) {
        RecordKeysDiffer(c, id, other);
      } else {
        var n: nat :| 1 <= n <= |m.runs[other].steps| && key == StepKey(c.prefix, other, n);
        StepIsNoRecord(c, other, n, id);
      }
      assert false;
    }
  }

  // --- what a put leaves alone ----------------------------------------------------------------

  lemma OtherRunUntouched(c: Config, o: Remote, o': Remote, r: Record, id: string, key: string)
    requires PlainId(r.id) && PlainId(id) && r.id != id && RunStored(c, o, r)
    requires key == RecordKey(c.prefix, id) || exists n: nat :: n <= MAX_STEPS && key == StepKey(c.prefix, id, n)
    requires forall k :: k in o.objects && k != key ==> k in o'.objects && o'.objects[k] == o.objects[k]
    requires Counter(o', r.id) == Counter(o, r.id)
    ensures RunStored(c, o', r)
  {
    hide StepKey, RecordKey, Counter;
    var blob := c.codec.encodeRecord(StoredRecord(r));
    assert Holds(o', RecordKey(c.prefix, r.id), blob) by {
      if key == RecordKey(c.prefix, id) {
        if RecordKey(c.prefix, r.id) == key {
          RecordKeysDiffer(c, r.id, id);
        }
      } else {
        var n: nat :| n <= MAX_STEPS && key == StepKey(c.prefix, id, n);
        StepIsNoRecord(c, id, n, r.id);
      }
    }
    forall n | 1 <= n <= |r.steps| ensures Holds(o', StepKey(c.prefix, r.id, n), c.codec.encodeStep(r.steps[n - 1])) {
      assert Holds(o, StepKey(c.prefix, r.id, n), c.codec.encodeStep(r.steps[n - 1]));
      if key == RecordKey(c.prefix, id) {
        StepIsNoRecord(c, r.id, n, id);
      } else {
        var k: nat :| k <= MAX_STEPS && key == StepKey(c.prefix, id, k);
        if StepKey(c.prefix, r.id, n) == key {
          StepKeysDiffer(c, r.id, n, id, k);
        }
      }
    }
  }

  /** The runs after one of them changed: who owned a key still does. */
  lemma OwnedGrows(c: Config, m: Local, m': Local, key: string)
    requires forall id :: id in m.runs ==>
      id in m'.runs && m'.runs[id].id == m.runs[id].id && |m.runs[id].steps| <= |m'.runs[id].steps|
    requires Owned(c, m, key)
    ensures Owned(c, m', key)
  {
    hide StepKey, RecordKey;
    var id :| id in m.runs && OwnedBy(c, m.runs[id], key);
    assert OwnedBy(c, m'.runs[id], key);
  }

  lemma PutsStayOnce(c: Config, o: Remote, key: string)
    requires StepsPutOnce(c, o.puts) && (forall k :: k in o.puts ==> k in o.objects)
    requires key !in o.objects || IsRecordKey(c, key)
    ensures StepsPutOnce(c, o.puts + [key])
  {
    hide RecordKey;
    var all := o.puts + [key];
    forall i, j | 0 <= i < j < |all| && all[i] == all[j] ensures IsRecordKey(c, all[i]) {
      if j == |o.puts| {
        assert all[i] in o.puts;
      }
    }
  }

  // --- one operation -------------------------------------------------------------------------------

  /** `o'` is `o` after one put under a key of the run `r'`, whose record it brings up to date. */
  ghost predicate OnePut(c: Config, o: Remote, o': Remote, r': Record, key: string)
  {
    && o'.puts == o.puts + [key]
    && (forall k :: k in o'.objects <==> k in o.objects || k == key)
    && (forall k :: k in o.objects && k != key ==> o'.objects[k] == o.objects[k])
    && (forall id :: id != r'.id ==> Counter(o', id) == Counter(o, id))
    && (forall id :: id in o'.steps ==> id in o.steps || id == r'.id)
    && (key == RecordKey(c.prefix, r'.id) || (key !in o.objects && IsStepKey(c, r'.id, |r'.steps|, key)))
  }

  lemma OnePutKeepsRuns(c: Config, o: Remote, o': Remote, m: Local, r': Record, key: string, id: string)
    requires Represents(c, o, m) && PlainId(r'.id) && RunStored(c, o', r') && OnePut(c, o, o', r', key)
    requires id in m.runs && id != r'.id
    ensures RunStored(c, o', m.runs[id])
  {
    hide StepKey, RecordKey, RunStored, Owned, StepsPutOnce, Counter;
    assert PlainId(id) && m.runs[id].id == id && RunStored(c, o, m.runs[id]);
    if key != RecordKey(c.prefix, r'.id) {
      var n: nat :| 1 <= n <= |r'.steps| && key == StepKey(c.prefix, r'.id, n);
      NoMoreThanMax(c, o', r');
    }
    OtherRunUntouched(c, o, o', m.runs[id], r'.id, key);
  }

  lemma OnePutKeepsOwners(c: Config, o: Remote, o': Remote, m: Local, r': Record, key: string, k: string)
    requires Represents(c, o, m) && OnePut(c, o, o', r', key) && k in o'.objects
    requires r'.id in m.runs ==> |m.runs[r'.id].steps| <= |r'.steps|
    ensures Owned(c, m.(runs := m.runs[r'.id := r']), k)
  {
    hide StepKey, RecordKey, RunStored, StepsPutOnce, Counter;
    var m' := m.(runs := m.runs[r'.id := r']);
    if k == key {
      assert OwnedBy(c, m'.runs[r'.id], key);
    } else {
      OwnedGrows(c, m, m', k);
    }
  }

  lemma OnePutRepresents(c: Config, o: Remote, o': Remote, m: Local, m': Local, r': Record, key: string)
    requires Represents(c, o, m) && PlainId(r'.id) && RunStored(c, o', r') && OnePut(c, o, o', r', key)
    requires r'.id in m.runs ==> |m.runs[r'.id].steps| <= |r'.steps|
    requires m'.runs == m.runs[r'.id := r']
    ensures Represents(c, o', m')
  {
    hide StepKey, RecordKey, RunStored, Owned, StepsPutOnce, Counter;
    forall id | id in m'.runs ensures PlainId(id) && m'.runs[id].id == id && RunStored(c, o', m'.runs[id]) {
      if id != r'.id {
        OnePutKeepsRuns(c, o, o', m, r', key, id);
      }
    }
    forall k | k in o'.objects ensures Owned(c, m', k) {
      OnePutKeepsOwners(c, o, o', m, r', key, k);
      SameRunsOwn(c, m.(runs := m.runs[r'.id := r']), m', k);
    }
    assert key == RecordKey(c.prefix, r'.id) ==> IsRecordKey(c, key);
    PutsStayOnce(c, o, key);
  }

  lemma SameRunsOwn(c: Config, m: Local, m': Local, key: string)
    requires m.runs == m'.runs && Owned(c, m, key)
    ensures Owned(c, m', key)
  {
  }

  lemma CreateAgrees(c: Config, o: Remote, m: Local, rec: Record)
    requires Represents(c, o, m) && Allowed(m, Create(rec))
    ensures Represents(c, ObjCreate(c, o, rec), MemCreate(m, rec).0)
  {
    hide StepKey, RecordKey, RunStored, Owned, StepsPutOnce;
    NewRunStored(c, o, rec);
    OnePutRepresents(c, o, ObjCreate(c, o, rec), m, MemCreate(m, rec).0, rec, RecordKey(c.prefix, rec.id));
  }

  lemma NewRunStored(c: Config, o: Remote, rec: Record)
    requires rec.steps == [] && rec.status == Running && rec.id !in o.steps
    ensures RunStored(c, ObjCreate(c, o, rec), rec)
  {
    assert StoredRecord(rec) == rec;
  }

  /** The next step's key has never been written. */
  lemma NextKeyIsFresh(c: Config, o: Remote, m: Local, id: string)
    requires Represents(c, o, m) && id in m.runs && |m.runs[id].steps| < MAX_STEPS
    ensures StepKey(c.prefix, id, |m.runs[id].steps| + 1) !in o.objects
  {
    hide StepKey, RecordKey, RunStored, StepsPutOnce;
    var n := |m.runs[id].steps| + 1;
    var key := StepKey(c.prefix, id, n);
    if key in o.objects {
      assert Owned(c, m, key);
      var other :| other in m.runs && OwnedBy(c, m.runs[other], key);
      if key == RecordKey(c.prefix, other) {
        StepIsNoRecord(c, id, n, other);
      } else {
        assert RunStored(c, o, m.runs[other]);
        NoMoreThanMax(c, o, m.runs[other]);
        var k: nat :| 1 <= k <= |m.runs[other].steps| && key == StepKey(c.prefix, other, k);
        StepKeysDiffer(c, id, n, other, k);
      }
      assert false;
    }
  }

  lemma NoMoreThanMax(c: Config, o: Remote, r: Record)
    requires RunStored(c, o, r)
    ensures |r.steps| <= MAX_STEPS
  {
  }

  lemma LongerRunStored(c: Config, o: Remote, r: Record, step: RunStep)
    requires RunStored(c, o, r) && PlainId(r.id) && |r.steps| < MAX_STEPS && r.status == Running
    ensures ObjAppend(c, o, r.id, step).1 == None
    ensures RunStored(c, ObjAppend(c, o, r.id, step).0, r.(steps := r.steps + [Named(step, |r.steps|)]))
  {
    hide StepKey, RecordKey;
    var o' := ObjAppend(c, o, r.id, step).0;
    var n := |r.steps| + 1;
    var r' := r.(steps := r.steps + [Named(step, |r.steps|)]);
    assert StoredRecord(r') == StoredRecord(r);
    StepIsNoRecord(c, r.id, n, r.id);
    forall k | 1 <= k <= |r'.steps| ensures Holds(o', StepKey(c.prefix, r.id, k), c.codec.encodeStep(r'.steps[k - 1])) {
      if k < n {
        assert Holds(o, StepKey(c.prefix, r.id, k), c.codec.encodeStep(r.steps[k - 1]));
        if StepKey(c.prefix, r.id, k) == StepKey(c.prefix, r.id, n) {
          StepKeysDiffer(c, r.id, k, r.id, n);
        }
      }
    }
  }

  lemma AppendAgrees(c: Config, o: Remote, m: Local, id: string, step: RunStep)
    requires Represents(c, o, m) && Allowed(m, Append(id, step))
    ensures ObjAppend(c, o, id, step).1 == None == MemAppend(m, id, step).1
    ensures Represents(c, ObjAppend(c, o, id, step).0, MemAppend(m, id, step).0)
  {
    hide StepKey, RecordKey, RunStored, Owned, StepsPutOnce;
    var r := m.runs[id];
    NextKeyIsFresh(c, o, m, id);
    LongerRunStored(c, o, r, step);
    CounterIs(c, o, r);
    var n := |r.steps| + 1;
    var r' := r.(steps := r.steps + [Named(step, |r.steps|)]);
    assert IsStepKey(c, id, |r'.steps|, StepKey(c.prefix, id, n));
    OnePutRepresents(c, o, ObjAppend(c, o, id, step).0, m, MemAppend(m, id, step).0, r', StepKey(c.prefix, id, n));
  }

  lemma CounterIs(c: Config, o: Remote, r: Record)
    requires RunStored(c, o, r)
    ensures Counter(o, r.id) == |r.steps|
  {
  }

  /** Rewriting a run's record when it ends keeps the representation. */
  lemma EndingAgrees(c: Config, o: Remote, m: Local, id: string, r': Record)
    requires Represents(c, o, m) && id in m.runs && r'.id == id && r'.status != Running && r'.steps == m.runs[id].steps
    ensures Represents(c, Put(o, RecordKey(c.prefix, id), c.codec.encodeRecord(r')), m.(runs := m.runs[id := r']))
  {
    hide StepKey, RecordKey, RunStored, Owned, StepsPutOnce;
    EndedRunStored(c, o, m.runs[id], r');
    OnePutRepresents(c, o, Put(o, RecordKey(c.prefix, id), c.codec.encodeRecord(r')), m, m.(runs := m.runs[id := r']), r',
                     RecordKey(c.prefix, id));
  }

  lemma EndedRunStored(c: Config, o: Remote, r: Record, r': Record)
    requires RunStored(c, o, r) && PlainId(r.id) && r'.id == r.id && r'.steps == r.steps && r'.status != Running
    ensures RunStored(c, Put(o, RecordKey(c.prefix, r.id), c.codec.encodeRecord(r')), r')
  {
    hide StepKey, RecordKey;
    var o' := Put(o, RecordKey(c.prefix, r.id), c.codec.encodeRecord(r'));
    forall n | 1 <= n <= |r.steps| ensures Holds(o', StepKey(c.prefix, r.id, n), c.codec.encodeStep(r.steps[n - 1])) {
      assert Holds(o, StepKey(c.prefix, r.id, n), c.codec.encodeStep(r.steps[n - 1]));
      StepIsNoRecord(c, r.id, n, r.id);
    }
  }

  /** Every allowed operation answers alike and keeps the two stores in step. */
  lemma OperationAgrees(c: Config, o: Remote, m: Local, op: Op)
    requires RoundTrips(c.codec) && Represents(c, o, m) && Allowed(m, op)
    ensures var (o', a), (m', b) := OnRemote(c, o, op), OnLocal(m, op); SameReply(a, b) && Represents(c, o', m')
  {
    hide StepKey, RecordKey, Represents, RoundTrips;
    match op {
      case Create(rec) =>
        CreateAgrees(c, o, m, rec);
      case Append(id, step) =>
        AppendAgrees(c, o, m, id, step);
      case Finish(id, report, usage, at) =>
        GetAgrees(c, o, m, id);
        RunIdIs(c, o, m, id);
        var r := m.runs[id];
        EndingAgrees(c, o, m, id, r.(report := Some(report), usage := usage, status := Completed, finishedAt := at));
      case Fail(id, code, message, noteAt, at) =>
        FailAgrees(c, o, m, id, code, message, noteAt, at);
      case Get(id) =>
        if id in m.runs {
          GetAgrees(c, o, m, id);
        } else {
          GetMissing(c, o, m, id);
        }
    }
  }

  lemma RunIdIs(c: Config, o: Remote, m: Local, id: string)
    requires Represents(c, o, m) && id in m.runs
    ensures m.runs[id].id == id
  {
  }

  lemma FailAgrees(c: Config, o: Remote, m: Local, id: string, code: string, message: string, noteAt: int, at: int)
    requires RoundTrips(c.codec) && Represents(c, o, m) && Allowed(m, Fail(id, code, message, noteAt, at))
    ensures ObjFail(c, o, id, code, message, noteAt, at).1 == None == MemFail(m, id, code, message, noteAt, at).1
    ensures Represents(c, ObjFail(c, o, id, code, message, noteAt, at).0, MemFail(m, id, code, message, noteAt, at).0)
  {
    hide StepKey, RecordKey, Represents, RoundTrips;
    var note := FailureNote(code, message, noteAt);
    AppendAgrees(c, o, m, id, note);
    var o1, m1 := ObjAppend(c, o, id, note).0, MemAppend(m, id, note).0;
    GetAgrees(c, o1, m1, id);
    RunIdIs(c, o1, m1, id);
    var r := m1.runs[id].(status := Failed, finishedAt := at);
    EndingAgrees(c, o1, m1, id, r);
    assert m1.runs[id := r] == m.runs[id := r];
  }

  // --- whole histories -----------------------------------------------------------------------------

  /**
   * Over every allowed history of any number of runs, however interleaved, the two stores give the
   * same replies, and afterwards no step object has been put more than once.
   */
  lemma {:induction false} HistoriesAgree(c: Config, o: Remote, m: Local, ops: seq<Op>)
    requires RoundTrips(c.codec) && Represents(c, o, m) && AllAllowed(m, ops)
    ensures var a, b := RemoteReplies(c, o, ops), LocalReplies(m, ops);
            |a| == |b| && forall i :: 0 <= i < |a| ==> SameReply(a[i], b[i])
    ensures StepsPutOnce(c, RemoteAfter(c, o, ops).puts)
    decreases |ops|
  {
    hide OnRemote, OnLocal, RoundTrips;
    if ops == [] {
    } else {
      hide Represents;
      OperationAgrees(c, o, m, ops[0]);
      HistoriesAgree(c, OnRemote(c, o, ops[0]).0, OnLocal(m, ops[0]).0, ops[1..]);
    }
  }

  lemma FreshStoresAgree(c: Config, ops: seq<Op>)
    requires RoundTrips(c.codec) && AllAllowed(Local(map[], []), ops)
    ensures var a, b := RemoteReplies(c, EMPTY_REMOTE, ops), LocalReplies(Local(map[], []), ops);
            |a| == |b| && forall i :: 0 <= i < |a| ==> SameReply(a[i], b[i])
    ensures StepsPutOnce(c, RemoteAfter(c, EMPTY_REMOTE, ops).puts)
  {
    HistoriesAgree(c, EMPTY_REMOTE, Local(map[], []), ops);
  }

  /**
   * Where the stores part: a running run can be failed in memory always, but on object storage
   * exactly while a step key is left for the failure note. Otherwise nothing is written at all.
   */
  lemma FailNeedsAKey(c: Config, o: Remote, m: Local, id: string, code: string, message: string, noteAt: int, at: int)
    requires RoundTrips(c.codec) && Represents(c, o, m) && id in m.runs && m.runs[id].status == Running
    ensures MemFail(m, id, code, message, noteAt, at).1 == None
    ensures ObjFail(c, o, id, code, message, noteAt, at).1 == None <==> |m.runs[id].steps| < MAX_STEPS
    ensures |m.runs[id].steps| >= MAX_STEPS ==> ObjFail(c, o, id, code, message, noteAt, at) == (o, Some("MAS-6014"))
  {
    hide StepKey, RecordKey, RunStored, Owned, StepsPutOnce, ObjGet, RoundTrips;
    if |m.runs[id].steps| < MAX_STEPS {
      FailAgrees(c, o, m, id, code, message, noteAt, at);
    } else {
      CounterIs(c, o, m.runs[id]);
      assert ObjAppend(c, o, id, FailureNote(code, message, noteAt)) == (o, Some("MAS-6014"));
    }
  }
}
