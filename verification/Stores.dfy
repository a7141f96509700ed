/** The two run stores: one object per step on object storage, and the in-memory one it must agree with. */
module Stores {
  import opened Basics
  import opened GoStrings
  import opened StringOrder
  import opened StoreKeys

  // --- records -------------------------------------------------------------------

  datatype Status = Running | Completed | Failed

  datatype RunStep = RunStep(
    id: string, kind: string, at: int, actor: string, name: string, code: string, err: string, payload: string)

  /** `request` stands for everything fixed when the run is created. */
  datatype Record = Record(
    id: string, status: Status, steps: seq<RunStep>, report: Option<string>, usage: int, finishedAt: int,
    request: string)

  function NextStepID(n: nat): (s: string)
  {
    "s-" + Itoa(n + 1)
  }

  function Named(step: RunStep, n: nat): (r: RunStep)
  {
    if step.id == "" then step.(id := NextStepID(n)) else step
  }

  function FailureNote(code: string, message: string, at: int): (r: RunStep)
  {
    RunStep("", "note", at, "service", "run failed", code, message, "")
  }

  /** itoa of the stores: digits are prepended from the last one. */
  method FormatInt(n: nat) returns (s: string)
    ensures s == Itoa(n)
  {
    if n == 0 {
      return "0";
    }
    s := "";
    var rest := n;
    while rest > 0
      invariant if rest > 0 then Itoa(rest) + s == Itoa(n) else s == Itoa(n)
    {
      assert rest >= 10 ==> Itoa(rest) == Itoa(rest / 10) + [DigitChar(rest % 10)];
      s := [DigitChar(rest % 10)] + s;
      rest := rest / 10;
    }
  }

  // --- the in-memory store ----------------------------------------------------------

  datatype Local = Local(runs: map<string, Record>, order: seq<string>)

  function MemCreate(m: Local, rec: Record): (r: (Local, Option<string>))
  {
    if rec.id in m.runs then (m, Some("MAS-6002"))
    else (Local(m.runs[rec.id := rec], m.order + [rec.id]), None)
  }

  function MemAppend(m: Local, id: string, step: RunStep): (r: (Local, Option<string>))
  {
    if id !in m.runs then (m, Some("MAS-6001"))
    else
      var rec := m.runs[id];
      (m.(runs := m.runs[id := rec.(steps := rec.steps + [Named(step, |rec.steps|)])]), None)
  }

  function MemFinish(m: Local, id: string, report: string, usage: int, at: int): (r: (Local, Option<string>))
  {
    if id !in m.runs then (m, Some("MAS-6001"))
    else
      var rec := m.runs[id];
      (m.(runs := m.runs[id := rec.(report := Some(report), usage := usage, status := Completed, finishedAt := at)]), None)
  }

  function MemFail(m: Local, id: string, code: string, message: string, noteAt: int, at: int): (r: (Local, Option<string>))
  {
    if id !in m.runs then (m, Some("MAS-6001"))
    else
      var rec := m.runs[id];
      var note := Named(FailureNote(code, message, noteAt), |rec.steps|);
      (m.(runs := m.runs[id := rec.(status := Failed, finishedAt := at, steps := rec.steps + [note])]), None)
  }

  function MemGet(m: Local, id: string): (r: Result<Record>)
  {
    if id in m.runs then Ok(m.runs[id]) else Err("MAS-6001")
  }

  class Memory {
    var runs: map<string, Record>
    var order: seq<string>

    constructor ()
      ensures View() == Local(map[], [])
    {
      runs, order := map[], [];
    }

    function View(): (m': Local)
      reads this
    {
      Local(runs, order)
    }

    method Create(rec: Record) returns (err: Option<string>)
      modifies this
      ensures (View(), err) == MemCreate(old(View()), rec)
    {
      if rec.id in runs {
        return Some("MAS-6002");
      }
      runs := runs[rec.id := rec];
      order := order + [rec.id];
      return None;
    }

    method Append(id: string, step: RunStep) returns (err: Option<string>)
      modifies this
      ensures (View(), err) == MemAppend(old(View()), id, step)
    {
      if id !in runs {
        return Some("MAS-6001");
      }
      var rec, s := runs[id], step;
      if s.id == "" {
        s := s.(id := NextStepID(|rec.steps|));
      }
      runs := runs[id := rec.(steps := rec.steps + [s])];
      return None;
    }

    method Finish(id: string, report: string, usage: int, at: int) returns (err: Option<string>)
      modifies this
      ensures (View(), err) == MemFinish(old(View()), id, report, usage, at)
    {
      if id !in runs {
        return Some("MAS-6001");
      }
      runs := runs[id := runs[id].(report := Some(report), usage := usage, status := Completed, finishedAt := at)];
      return None;
    }

    method Fail(id: string, code: string, message: string, noteAt: int, at: int) returns (err: Option<string>)
      modifies this
      ensures (View(), err) == MemFail(old(View()), id, code, message, noteAt, at)
    {
      if id !in runs {
        return Some("MAS-6001");
      }
      var rec := runs[id].(status := Failed, finishedAt := at);
      var note := FailureNote(code, message, noteAt).(id := NextStepID(|rec.steps|));
      runs := runs[id := rec.(steps := rec.steps + [note])];
      return None;
    }

    method Get(id: string) returns (r: Result<Record>)
      ensures r == MemGet(View(), id)
    {
      if id !in runs {
        return Err("MAS-6001");
      }
      return Ok(runs[id]);
    }
  }

  // --- what the object store talks to -------------------------------------------------

  /** JSON and the digest envelope, as functions to and from what is stored. */
  datatype Codec = Codec(
    encodeRecord: Record -> string, decodeRecord: string -> Result<Record>,
    encodeStep: RunStep -> string, decodeStep: string -> Result<RunStep>)

  ghost predicate RoundTrips(c: Codec)
  {
    && (forall r :: c.decodeRecord(c.encodeRecord(r)) == Ok(r))
    && (forall s :: c.decodeStep(c.encodeStep(s)) == Ok(s))
  }

  datatype Page = Page(contents: seq<string>, truncated: bool, nextToken: string)

  /** A listing service: a page for each continuation token, and what it still has to list from there. */
  datatype Server = Server(
    page: (set<string>, string, string) -> Page,
    left: (set<string>, string, string) -> set<string>)

  function Under(keys: set<string>, prefix: string): (r: set<string>)
  {
    set k | k in keys && prefix <= k
  }

  ghost predicate FaithfulPage(s: Server, keys: set<string>, prefix: string, token: string)
  {
    var p, rest := s.page(keys, prefix, token), s.left(keys, prefix, token);
    && (forall i, j :: 0 <= i < j < |p.contents| ==> p.contents[i] != p.contents[j])
    && (forall k :: k in p.contents ==> k in rest)
    && (if p.truncated then
          p.contents != [] && p.nextToken != ""
          && s.left(keys, prefix, p.nextToken) == set k | k in rest && k !in p.contents
        else forall k :: k in rest ==> k in p.contents)
  }

  /** Pages of any size, in any order, that list every key under the prefix once. */
  ghost predicate Faithful(s: Server)
  {
    && (forall keys, prefix :: s.left(keys, prefix, "") == Under(keys, prefix))
    && (forall keys, prefix, token :: FaithfulPage(s, keys, prefix, token))
  }

  datatype Config = Config(prefix: string, codec: Codec, server: Server)

  // --- the object store -------------------------------------------------------------------

  /** The bucket, the writer's step counters, and the log of keys it has put. */
  datatype Remote = Remote(objects: map<string, string>, steps: map<string, nat>, puts: seq<string>)

  const EMPTY_REMOTE := Remote(map[], map[], [])

  function Put(o: Remote, key: string, blob: string): (r: Remote)
  {
    o.(objects := o.objects[key := blob], puts := o.puts + [key])
  }

  function Counter(o: Remote, id: string): (n: nat)
  {
    if id in o.steps then o.steps[id] else 0
  }

  /** What the step objects say, in key order. */
  function Decoded(c: Codec, objects: map<string, string>, keys: seq<string>): (r: Result<seq<RunStep>>)
    requires forall k :: k in keys ==> k in objects
  {
    if forall i :: 0 <= i < |keys| ==> c.decodeStep(objects[keys[i]]).Ok? then
      Ok(seq(|keys|, i requires 0 <= i < |keys| => c.decodeStep(objects[keys[i]]).value))
    else Err("MAS-6013")
  }

  ghost function StepsOf(c: Config, o: Remote, id: string): (r: Result<seq<RunStep>>)
  {
    Decoded(c.codec, o.objects, SortedSet(Under(o.objects.Keys, StepsPrefix(c.prefix, id))))
  }

  ghost function ObjGet(c: Config, o: Remote, id: string): (r: Result<Record>)
  {
    var key := RecordKey(c.prefix, id);
    if key !in o.objects then Err("MAS-6011")
    else
      match c.codec.decodeRecord(o.objects[key])
      case Err(code) => Err(code)
      case Ok(rec) =>
        if rec.status != Running then Ok(rec)
        else
          match StepsOf(c, o, id)
          case Err(code) => Err(code)
          case Ok(steps) => Ok(if |steps| > |rec.steps| then rec.(steps := steps) else rec)
  }

  function ObjCreate(c: Config, o: Remote, rec: Record): (r: Remote)
  {
    Put(o, RecordKey(c.prefix, rec.id), c.codec.encodeRecord(rec))
  }

  function ObjAppend(c: Config, o: Remote, id: string, step: RunStep): (r: (Remote, Option<string>))
  {
    var n := Counter(o, id) + 1;
    if n > MAX_STEPS then (o, Some("MAS-6014"))
    else
      (Put(o.(steps := o.steps[id := n]), StepKey(c.prefix, id, n), c.codec.encodeStep(Named(step, n - 1))), None)
  }

  ghost function ObjFinish(c: Config, o: Remote, id: string, report: string, usage: int, at: int): (r: (Remote, Option<string>))
  {
    match ObjGet(c, o, id)
    case Err(code) => (o, Some(code))
    case Ok(rec) =>
      var done := rec.(report := Some(report), usage := usage, status := Completed, finishedAt := at);
      (Put(o, RecordKey(c.prefix, id), c.codec.encodeRecord(done)), None)
  }

  ghost function ObjFail(c: Config, o: Remote, id: string, code: string, message: string, noteAt: int, at: int)
    : (r: (Remote, Option<string>))
  {
    var (o', err) := ObjAppend(c, o, id, FailureNote(code, message, noteAt));
    if err.Some? then (o', err)
    else
      match ObjGet(c, o', id)
      case Err(e) => (o', Some(e))
      case Ok(rec) =>
        (Put(o', RecordKey(c.prefix, id), c.codec.encodeRecord(rec.(status := Failed, finishedAt := at))), None)
  }

  // --- the object store, in place -----------------------------------------------------------

  method DecodeAll(codec: Codec, objects: map<string, string>, keys: seq<string>) returns (r: Result<seq<RunStep>>)
    requires forall k :: k in keys ==> k in objects
    ensures r == Decoded(codec, objects, keys)
  {
    var out: seq<RunStep> := [];
    for i := 0 to |keys|
      invariant |out| == i
      invariant forall j :: 0 <= j < i ==> codec.decodeStep(objects[keys[j]]) == Ok(out[j])
    {
      var step := codec.decodeStep(objects[keys[i]]);
      if step.Err? {
        return Err("MAS-6013");
      }
      out := out + [step.value];
    }
    assert out == Decoded(codec, objects, keys).value;
    return Ok(out);
  }

  class Object {
    const config: Config
    var objects: map<string, string>
    var steps: map<string, nat>
    var puts: seq<string>

    constructor (config: Config)
      ensures this.config == config && View() == EMPTY_REMOTE
    {
      this.config := config;
      objects, steps, puts := map[], map[], [];
    }

    function View(): (r: Remote)
      reads this
    {
      Remote(objects, steps, puts)
    }

    method PutObject(key: string, blob: string)
      modifies `objects, `puts
      ensures View() == Put(old(View()), key, blob)
    {
      objects := objects[key := blob];
      puts := puts + [key];
    }

    method Create(rec: Record) returns (err: Option<string>)
      modifies this
      ensures View() == ObjCreate(config, old(View()), rec) && err == None
    {
      PutObject(RecordKey(config.prefix, rec.id), config.codec.encodeRecord(rec));
      return None;
    }

    method Append(id: string, step: RunStep) returns (err: Option<string>)
      modifies this
      ensures (View(), err) == ObjAppend(config, old(View()), id, step)
    {
      var n := (if id in steps then steps[id] else 0) + 1;
      if n > MAX_STEPS {
        return Some("MAS-6014");
      }
      steps := steps[id := n];
      var s := step;
      if s.id == "" {
        s := s.(id := NextStepID(n - 1));
      }
      PutObject(StepKey(config.prefix, id, n), config.codec.encodeStep(s));
      return None;
    }

    method ListSteps(id: string) returns (keys: seq<string>)
      requires Faithful(config.server)
      ensures forall i, j :: 0 <= i < j < |keys| ==> keys[i] != keys[j]
      ensures (set k | k in keys) == Under(objects.Keys, StepsPrefix(config.prefix, id))
    {
      var prefix, token := StepsPrefix(config.prefix, id), "";
      ghost var all := Under(objects.Keys, prefix);
      ghost var rest := all;
      keys := [];
      while true
        invariant rest == config.server.left(objects.Keys, prefix, token)
        invariant forall i, j :: 0 <= i < j < |keys| ==> keys[i] != keys[j]
        invariant forall k :: k in keys <==> k in all && k !in rest
        invariant rest <= all
        decreases rest
      {
        var page := config.server.page(objects.Keys, prefix, token);
        assert FaithfulPage(config.server, objects.Keys, prefix, token);
        forall i | 0 <= i < |page.contents| ensures page.contents[i] in rest {
          assert page.contents[i] in page.contents;
        }
        keys := keys + page.contents;
        if !page.truncated || page.nextToken == "" {
          assert forall k :: k in rest ==> k in page.contents;
          break;
        }
        assert page.contents[0] in rest;
        rest := set k | k in rest && k !in page.contents;
        token := page.nextToken;
      }
      assert (set k | k in keys) == all;
    }

    /** readSteps. */
    method ReadSteps(id: string) returns (r: Result<seq<RunStep>>)
      requires Faithful(config.server)
      ensures r == StepsOf(config, View(), id)
    {
      hide Faithful, Increasing, SortStrings, SortedSet, Decoded;
      var listed := ListSteps(id);
      var keys := SortStrings(listed);
      SortStringsSorts(listed);
      assert keys == SortedSet(Under(objects.Keys, StepsPrefix(config.prefix, id)));
      forall k | k in keys ensures k in objects {
      }
      r := DecodeAll(config.codec, objects, keys);
    }

    method Get(id: string) returns (r: Result<Record>)
      requires Faithful(config.server)
      ensures r == ObjGet(config, View(), id)
    {
      var key := RecordKey(config.prefix, id);
      if key !in objects {
        return Err("MAS-6011");
      }
      var decoded := config.codec.decodeRecord(objects[key]);
      if decoded.Err? {
        return decoded;
      }
      var rec := decoded.value;
      if rec.status != Running {
        return Ok(rec);
      }
      var steps := ReadSteps(id);
      if steps.Err? {
        return Err(steps.code);
      }
      if |steps.value| > |rec.steps| {
        rec := rec.(steps := steps.value);
      }
      return Ok(rec);
    }

    method Finish(id: string, report: string, usage: int, at: int) returns (err: Option<string>)
      requires Faithful(config.server)
      modifies this
      ensures (View(), err) == ObjFinish(config, old(View()), id, report, usage, at)
    {
      var got := Get(id);
      if got.Err? {
        return Some(got.code);
      }
      var rec := got.value.(report := Some(report), usage := usage, status := Completed, finishedAt := at);
      PutObject(RecordKey(config.prefix, id), config.codec.encodeRecord(rec));
      return None;
    }

    method Fail(id: string, code: string, message: string, noteAt: int, at: int) returns (err: Option<string>)
      requires Faithful(config.server)
      modifies this
      ensures (View(), err) == ObjFail(config, old(View()), id, code, message, noteAt, at)
    {
      err := Append(id, FailureNote(code, message, noteAt));
      if err.Some? {
        return;
      }
      var got := Get(id);
      if got.Err? {
        return Some(got.code);
      }
      var rec := got.value.(status := Failed, finishedAt := at);
      PutObject(RecordKey(config.prefix, id), config.codec.encodeRecord(rec));
      return None;
    }
  }
}
