/** The file store: one file per run, written to a temporary name and renamed, so that no failure tears a record. */
module FileStore {
  import opened Basics
  import opened Stores
  import opened StoreAgreement

  // --- names ------------------------------------------------------------------------------

  predicate IdStart(c: char)
  {
    'A' <= c <= 'Z' || 'a' <= c <= 'z' || '0' <= c <= '9'
  }

  /** runIDPattern. */
  predicate ValidId(id: string)
  {
    && 1 <= |id| <= 128 && IdStart(id[0])
    && forall i :: 0 < i < |id| ==> IdStart(id[i]) || id[i] in {'_', '.', '-'}
  }

  function PathOf(dir: string, id: string): (s: string)
  {
    dir + "/" + id + ".json"
  }

  function TempOf(path: string): (s: string)
  {
    path + ".tmp"
  }

  lemma PathsDiffer(dir: string, id: string, other: string)
    requires PathOf(dir, id) == PathOf(dir, other)
    ensures id == other
  {
    var p := PathOf(dir, id);
    assert p[|dir| + 1..|p| - 5] == id;
    assert PathOf(dir, other)[|dir| + 1..|p| - 5] == other;
  }

  lemma TempIsNoPath(dir: string, path: string, id: string)
    ensures TempOf(path) != PathOf(dir, id)
  {
    var t, p := TempOf(path), PathOf(dir, id);
    assert t[|t| - 1] == 'p' && p[|p| - 1] == 'n';
  }

  /** An id that is accepted cannot leave the directory or hide in it. */
  lemma IdsStayInside(dir: string, id: string)
    requires ValidId(id)
    ensures PathOf(dir, id) == dir + "/" + (id + ".json")
    ensures '/' !in id + ".json" && '\\' !in id + ".json" && id[0] != '.' && |id| <= 128
  {
    assert forall i :: 0 <= i < |id| ==> id[i] != '/' && id[i] != '\\';
  }

  /** And every id the service mints is accepted: "run-", a time stamp, and a random number in hexadecimal. */
  lemma MintedIdsAreValid(stamp: string, hex: string)
    requires |stamp| == 15 && forall i :: 0 <= i < |stamp| ==> '0' <= stamp[i] <= '9' || stamp[i] == 'T'
    requires |hex| == 8 && forall i :: 0 <= i < |hex| ==> '0' <= hex[i] <= '9' || 'a' <= hex[i] <= 'f'
    ensures ValidId("run-" + stamp + "-" + hex)
  {
    var id := "run-" + stamp + "-" + hex;
    forall i | 0 < i < |id| ensures IdStart(id[i]) || id[i] in {'_', '.', '-'} {
      if i >= 20 {
        assert id[i] == hex[i - 20];
      } else if 4 <= i < 19 {
        assert id[i] == stamp[i - 4];
      }
    }
  }

  // --- what a write does to the disk -------------------------------------------------------------

  type Disk = map<string, string>

  /** The JSON envelope with its digest, as functions to and from a file's content. */
  datatype FileCodec = FileCodec(encode: Record -> string, decode: string -> Result<Record>)

  ghost predicate ReadsBack(c: FileCodec)
  {
    forall r :: c.decode(c.encode(r)) == Ok(r)
  }

  datatype Config = Config(dir: string, codec: FileCodec)

  /**
   * What the operating system makes of an operation: all is well, the look at the run's file fails, or the write
   * does: before anything is written, with part of the file written, or when the rename is refused.
   */
  datatype Luck = Fine | ReadFails | OpenFails | WriteFails(left: string) | RenameFails

  function Written(c: Config, d: Disk, path: string, rec: Record, luck: Luck): (r: (Disk, Option<string>))
  {
    match luck
    case OpenFails => (d, Some("MAS-6002"))
    case WriteFails(left) => (d[TempOf(path) := left], Some("MAS-6002"))
    case RenameFails => (d - {TempOf(path)}, Some("MAS-6002"))
    case _ => ((d - {TempOf(path)})[path := c.codec.encode(rec)], None)
  }

  function Loaded(c: Config, d: Disk, id: string, readable: bool): (r: Result<Record>)
  {
    var path := PathOf(c.dir, id);
    if !ValidId(id) then Err("MAS-6001")
    else if !readable then Err("MAS-6004")
    else if path !in d then Err("MAS-6001")
    else
      match c.codec.decode(d[path])
      case Ok(rec) => Ok(rec)
      case Err(_) => Err("MAS-6003")
  }

  /** The record an operation comes to write, or its reply if it writes none. */
  datatype Intent = Write(id: string, rec: Record) | Answer(reply: Reply)

  function Changed(loaded: Result<Record>, id: string, f: Record -> Record): (r: Intent)
  {
    match loaded
    case Ok(rec) => Write(id, f(rec))
    case Err(code) => Answer(Done(Some(code)))
  }

  /** A create takes the id for free unless it can see the run's file. */
  function IntentOf(c: Config, d: Disk, op: Op, readable: bool): (i: Intent)
  {
    match op
    case Create(rec) =>
      if !ValidId(rec.id) then Answer(Done(Some("MAS-6001")))
      else if readable && PathOf(c.dir, rec.id) in d then Answer(Done(Some("MAS-6002")))
      else Write(rec.id, rec)
    case Append(id, step) =>
      Changed(Loaded(c, d, id, readable), id, (rec: Record) => rec.(steps := rec.steps + [Named(step, |rec.steps|)]))
    case Finish(id, report, usage, at) =>
      Changed(Loaded(c, d, id, readable), id,
              (rec: Record) => rec.(report := Some(report), usage := usage, status := Completed, finishedAt := at))
    case Fail(id, code, message, noteAt, at) =>
      Changed(Loaded(c, d, id, readable), id,
              (rec: Record) => rec.(status := Failed, finishedAt := at,
                                    steps := rec.steps + [Named(FailureNote(code, message, noteAt), |rec.steps|)]))
    case Get(id) => Answer(Got(Loaded(c, d, id, readable)))
  }

  function OnDisk(c: Config, d: Disk, op: Op, luck: Luck): (r: (Disk, Reply))
  {
    match IntentOf(c, d, op, luck != ReadFails)
    case Answer(reply) => (d, reply)
    case Write(id, rec) => var (d', err) := Written(c, d, PathOf(c.dir, id), rec, luck); (d', Done(err))
  }

  // --- the store, in place ---------------------------------------------------------------------------

  class Files {
    const config: Config
    var files: Disk

    constructor (config: Config)
      ensures this.config == config && files == map[]
    {
      this.config, files := config, map[];
    }

    method WriteRecord(path: string, rec: Record, luck: Luck) returns (err: Option<string>)
      modifies this
      ensures (files, err) == Written(config, old(files), path, rec, luck)
    {
      var blob := config.codec.encode(rec);
      var tmp := TempOf(path);
      if luck.OpenFails? {
        return Some("MAS-6002");
      }
      if luck.WriteFails? {
        files := files[tmp := luck.left];
        return Some("MAS-6002");
      }
      files := files[tmp := blob];
      if luck.RenameFails? {
        files := files - {tmp};
        assert files == old(files) - {tmp};
        return Some("MAS-6002");
      }
      assert files - {tmp} == old(files) - {tmp};
      files := (files - {tmp})[path := files[tmp]];
      return None;
    }

    method Load(id: string, readable: bool) returns (r: Result<Record>)
      ensures r == Loaded(config, files, id, readable)
    {
      if !ValidId(id) {
        return Err("MAS-6001");
      }
      if !readable {
        return Err("MAS-6004");
      }
      if PathOf(config.dir, id) !in files {
        return Err("MAS-6001");
      }
      var decoded := config.codec.decode(files[PathOf(config.dir, id)]);
      return if decoded.Ok? then decoded else Err("MAS-6003");
    }

    method Create(rec: Record, luck: Luck) returns (err: Option<string>)
      modifies this
      ensures (files, Done(err)) == OnDisk(config, old(files), Op.Create(rec), luck)
    {
      if !ValidId(rec.id) {
        return Some("MAS-6001");
      }
      var p := PathOf(config.dir, rec.id);
      if luck != ReadFails && p in files {
        return Some("MAS-6002");
      }
      err := WriteRecord(p, rec, luck);
    }

    method Append(id: string, step: RunStep, luck: Luck) returns (err: Option<string>)
      modifies this
      ensures (files, Done(err)) == OnDisk(config, old(files), Op.Append(id, step), luck)
    {
      var loaded := Load(id, luck != ReadFails);
      if loaded.Err? {
        return Some(loaded.code);
      }
      var rec, s := loaded.value, step;
      if s.id == "" {
        s := s.(id := NextStepID(|rec.steps|));
      }
      err := WriteRecord(PathOf(config.dir, id), rec.(steps := rec.steps + [s]), luck);
    }

    method Finish(id: string, report: string, usage: int, at: int, luck: Luck) returns (err: Option<string>)
      modifies this
      ensures (files, Done(err)) == OnDisk(config, old(files), Op.Finish(id, report, usage, at), luck)
    {
      var loaded := Load(id, luck != ReadFails);
      if loaded.Err? {
        return Some(loaded.code);
      }
      var rec := loaded.value.(report := Some(report), usage := usage, status := Completed, finishedAt := at);
      err := WriteRecord(PathOf(config.dir, id), rec, luck);
    }

    method Fail(id: string, code: string, message: string, noteAt: int, at: int, luck: Luck) returns (err: Option<string>)
      modifies this
      ensures (files, Done(err)) == OnDisk(config, old(files), Op.Fail(id, code, message, noteAt, at), luck)
    {
      var loaded := Load(id, luck != ReadFails);
      if loaded.Err? {
        return Some(loaded.code);
      }
      var rec := loaded.value.(status := Failed, finishedAt := at);
      var note := FailureNote(code, message, noteAt).(id := NextStepID(|rec.steps|));
      err := WriteRecord(PathOf(config.dir, id), rec.(steps := rec.steps + [note]), luck);
    }
  }

  // --- agreement with the in-memory store ------------------------------------------------------------------

  /** The files of valid ids hold the runs of the in-memory store, and there are no others. */
  ghost predicate Mirrors(c: Config, d: Disk, m: Local)
  {
    && (forall id :: id in m.runs ==> ValidId(id) && m.runs[id].id == id)
    && (forall id :: ValidId(id) ==> (PathOf(c.dir, id) in d <==> id in m.runs))
    && (forall id :: id in m.runs ==> d[PathOf(c.dir, id)] == c.codec.encode(m.runs[id]))
  }

  function IdOf(op: Op): (s: string)
  {
    match op
    case Create(rec) => rec.id
    case Append(id, _) => id
    case Finish(id, _, _, _) => id
    case Fail(id, _, _, _, _) => id
    case Get(id) => id
  }

  lemma LoadMirrors(c: Config, d: Disk, m: Local, id: string)
    requires ReadsBack(c.codec) && Mirrors(c, d, m) && ValidId(id)
    ensures Loaded(c, d, id, true) == MemGet(m, id)
  {
  }

  /** A record stored under its own path, whatever became of temporary files. */
  lemma StoredMirrors(c: Config, d: Disk, d': Disk, m: Local, m': Local, rec: Record)
    requires Mirrors(c, d, m) && ValidId(rec.id) && m'.runs == m.runs[rec.id := rec]
    requires PathOf(c.dir, rec.id) in d' && d'[PathOf(c.dir, rec.id)] == c.codec.encode(rec)
    requires SameElsewhere(c, d, d', PathOf(c.dir, rec.id))
    ensures Mirrors(c, d', m')
  {
    hide ValidId, PathOf;
    forall id | ValidId(id)
      ensures PathOf(c.dir, id) in d' <==> id in m'.runs
      ensures id in m'.runs ==> d'[PathOf(c.dir, id)] == c.codec.encode(m'.runs[id])
    {
      if PathOf(c.dir, id) == PathOf(c.dir, rec.id) {
        PathsDiffer(c.dir, id, rec.id);
      }
    }
  }

  lemma UntouchedMirrors(c: Config, d: Disk, d': Disk, m: Local)
    requires Mirrors(c, d, m)
    requires forall id :: SamePath(d, d', PathOf(c.dir, id))
    ensures Mirrors(c, d', m)
  {
    hide ValidId, PathOf;
    forall id ensures PathOf(c.dir, id) in d' <==> PathOf(c.dir, id) in d {
      assert SamePath(d, d', PathOf(c.dir, id));
    }
    forall id | id in m.runs ensures d'[PathOf(c.dir, id)] == c.codec.encode(m.runs[id]) {
      assert SamePath(d, d', PathOf(c.dir, id));
    }
  }

  predicate SamePath(d: Disk, d': Disk, path: string)
  {
    (path in d <==> path in d') && (path in d ==> d[path] == d'[path])
  }

  /** No run's file but this one has changed. */
  ghost predicate SameElsewhere(c: Config, d: Disk, d': Disk, path: string)
  {
    forall id :: PathOf(c.dir, id) != path ==> SamePath(d, d', PathOf(c.dir, id))
  }

  /** The in-memory counterpart of what an operation writes. */
  lemma IntentMirrors(c: Config, d: Disk, m: Local, op: Op)
    requires ReadsBack(c.codec) && Mirrors(c, d, m) && ValidId(IdOf(op))
    ensures match IntentOf(c, d, op, true)
            case Answer(reply) => OnLocal(m, op) == (m, reply)
            case Write(id, rec) =>
              && id == rec.id == IdOf(op) && OnLocal(m, op).1 == Done(None)
              && OnLocal(m, op).0.runs == m.runs[id := rec]
  {
    hide ValidId, PathOf, ReadsBack;
    LoadMirrors(c, d, m, IdOf(op));
    hide Loaded;
  }

  /** A create that cannot see whether the id is taken. */
  predicate Blind(op: Op, luck: Luck)
  {
    op.Create? && luck == ReadFails
  }

  predicate Lands(luck: Luck)
  {
    luck == Fine || luck == ReadFails
  }

  /** Replies that tell of the failure. */
  predicate Refused(reply: Reply)
  {
    reply == Done(Some("MAS-6002")) || reply == Done(Some("MAS-6004")) || reply == Got(Err("MAS-6004"))
  }

  /** What the runs are once the operation has ended: as in memory, unless it failed or was blind. */
  function EndedWith(m: Local, op: Op, luck: Luck): (m': Local)
  {
    if luck == Fine then OnLocal(m, op).0
    else if Blind(op, luck) then m.(runs := m.runs[op.rec.id := op.rec])
    else m
  }

  lemma WrittenElsewhere(c: Config, d: Disk, id: string, rec: Record, luck: Luck)
    ensures var path := PathOf(c.dir, id);
            var d' := Written(c, d, path, rec, luck).0;
            && SameElsewhere(c, d, d', path)
            && (Lands(luck) ==> path in d' && d'[path] == c.codec.encode(rec))
            && (!Lands(luck) ==> SamePath(d, d', path))
  {
    hide PathOf, TempOf;
    forall other ensures TempOf(PathOf(c.dir, id)) != PathOf(c.dir, other) {
      TempIsNoPath(c.dir, PathOf(c.dir, id), other);
    }
    TempIsNoPath(c.dir, PathOf(c.dir, id), id);
  }

  /** What comes of a record that is to be written. */
  lemma WrittenMirrors(c: Config, d: Disk, m: Local, m': Local, rec: Record, luck: Luck)
    requires Mirrors(c, d, m) && ValidId(rec.id) && m'.runs == m.runs[rec.id := rec]
    ensures var (d', err) := Written(c, d, PathOf(c.dir, rec.id), rec, luck);
            if Lands(luck) then err == None && Mirrors(c, d', m') else err == Some("MAS-6002") && Mirrors(c, d', m)
  {
    hide Mirrors, PathOf, ValidId;
    WrittenElsewhere(c, d, rec.id, rec, luck);
    var d' := Written(c, d, PathOf(c.dir, rec.id), rec, luck).0;
    if Lands(luck) {
      StoredMirrors(c, d, d', m, m', rec);
    } else {
      hide Written;
      forall other ensures SamePath(d, d', PathOf(c.dir, other)) {
      }
      UntouchedMirrors(c, d, d', m);
    }
  }

  /** One operation: it replies as in memory when all is well, a write that fails has not happened, and a blind create has. */
  lemma FileOperationAgrees(c: Config, d: Disk, m: Local, op: Op, luck: Luck)
    requires ReadsBack(c.codec) && Mirrors(c, d, m) && ValidId(IdOf(op))
    ensures var (d', reply), reply' := OnDisk(c, d, op, luck), OnLocal(m, op).1;
            && Mirrors(c, d', EndedWith(m, op, luck))
            && (luck == Fine ==> reply == reply')
            && (Blind(op, luck) ==> reply == Done(None))
            && (reply == reply' || Refused(reply) || Blind(op, luck))
  {
    if luck == ReadFails {
      UnreadableOperation(c, d, m, op);
    } else {
      IntentMirrors(c, d, m, op);
      hide IntentOf, OnLocal, Mirrors, PathOf, Written, ValidId, ReadsBack;
      match IntentOf(c, d, op, true) {
        case Answer(_) =>
        case Write(id, rec) => WrittenMirrors(c, d, m, OnLocal(m, op).0, rec, luck);
      }
    }
  }

  /** A run that cannot be read is refused, except by create, which only asks whether it can be seen. */
  lemma UnreadableOperation(c: Config, d: Disk, m: Local, op: Op)
    requires Mirrors(c, d, m) && ValidId(IdOf(op))
    ensures var (d', reply) := OnDisk(c, d, op, ReadFails);
            && Mirrors(c, d', EndedWith(m, op, ReadFails))
            && (if op.Create? then reply == Done(None) else Refused(reply))
  {
    hide Mirrors, PathOf, Written, ValidId;
    if op.Create? {
      WrittenMirrors(c, d, m, EndedWith(m, op, ReadFails), op.rec, ReadFails);
    }
  }

  /** So a create that meets a failing look replaces the run of that id, and that is the one case of it. */
  lemma BlindCreateReplaces(c: Config, d: Disk, m: Local, op: Op, luck: Luck)
    requires ReadsBack(c.codec) && Mirrors(c, d, m) && ValidId(IdOf(op)) && op.Create? && op.rec.id in m.runs
    ensures OnDisk(c, d, op, luck).1 == Done(None) <==> luck == ReadFails
    ensures luck == ReadFails ==> OnDisk(c, OnDisk(c, d, op, luck).0, Get(op.rec.id), Fine).1 == Got(Ok(op.rec))
  {
    hide OnDisk, Mirrors, ReadsBack, ValidId;
    FileOperationAgrees(c, d, m, op, luck);
    if luck == ReadFails {
      FileOperationAgrees(c, OnDisk(c, d, op, luck).0, EndedWith(m, op, luck), Get(op.rec.id), Fine);
    }
  }

  /** An id that is not accepted is refused as unknown, before the disk is looked at. */
  lemma InvalidIdIsRefused(c: Config, d: Disk, op: Op, luck: Luck)
    requires !ValidId(IdOf(op))
    ensures OnDisk(c, d, op, luck) == (d, if op.Get? then Got(Err("MAS-6001")) else Done(Some("MAS-6001")))
  {
    hide ValidId, PathOf;
  }

  /** A run whose file has been tampered with is refused, neither read nor written over, by all but a blind create. */
  lemma CorruptIsRefused(c: Config, d: Disk, op: Op, luck: Luck)
    requires ValidId(IdOf(op)) && PathOf(c.dir, IdOf(op)) in d && c.codec.decode(d[PathOf(c.dir, IdOf(op))]).Err?
    requires luck != ReadFails
    ensures OnDisk(c, d, op, luck)
         == (d, if op.Get? then Got(Err("MAS-6003")) else if op.Create? then Done(Some("MAS-6002")) else Done(Some("MAS-6003")))
  {
    hide ValidId, PathOf;
  }

  // --- crashes ------------------------------------------------------------------------------------------------

  /** What the disk itself does, one action at a time; only these are atomic. */
  datatype Action = Truncate(name: string) | Extend(name: string, piece: string) | Rename(from: string, to: string)

  function Acted(d: Disk, a: Action): (r: Disk)
  {
    match a
    case Truncate(name) => d[name := ""]
    case Extend(name, piece) => if name in d then d[name := d[name] + piece] else d
    case Rename(from, to) => if from in d then (d - {from})[to := d[from]] else d
  }

  function AllActed(d: Disk, list: seq<Action>): (r: Disk)
  {
    if list == [] then d else Acted(AllActed(d, list[..|list| - 1]), list[|list| - 1])
  }

  function Joined(pieces: seq<string>): (s: string)
  {
    if pieces == [] then "" else Joined(pieces[..|pieces| - 1]) + pieces[|pieces| - 1]
  }

  /** The new content goes to the temporary file in pieces of any size; the rename comes last. */
  function WriteActions(path: string, pieces: seq<string>): (list: seq<Action>)
    ensures |list| == |pieces| + 2
  {
    [Truncate(TempOf(path))] + seq(|pieces|, i requires 0 <= i < |pieces| => Extend(TempOf(path), pieces[i]))
    + [Rename(TempOf(path), path)]
  }

  /** Until the rename only the temporary file has changed. */
  lemma {:induction false} BeforeRename(d: Disk, path: string, pieces: seq<string>, n: nat)
    requires n <= |pieces| + 1
    ensures var d' := AllActed(d, WriteActions(path, pieces)[..n]);
            && d' - {TempOf(path)} == d - {TempOf(path)}
            && (n > 0 ==> TempOf(path) in d' && d'[TempOf(path)] == Joined(pieces[..n - 1]))
  {
    hide TempOf;
    var list := WriteActions(path, pieces);
    if n > 0 {
      BeforeRename(d, path, pieces, n - 1);
      assert list[..n][..n - 1] == list[..n - 1];
      if n > 1 {
        assert list[n - 1] == Extend(TempOf(path), pieces[n - 2]);
        assert pieces[..n - 1][..n - 2] == pieces[..n - 2];
      }
    }
  }

  /** All of the actions come to what a successful write leaves. */
  lemma AfterRename(c: Config, d: Disk, path: string, rec: Record, pieces: seq<string>)
    requires Joined(pieces) == c.codec.encode(rec)
    ensures AllActed(d, WriteActions(path, pieces)) == Written(c, d, path, rec, Fine).0
  {
    var list := WriteActions(path, pieces);
    BeforeRename(d, path, pieces, |pieces| + 1);
    assert list[..|list|] == list && pieces[..|pieces|] == pieces;
    assert list[|list| - 1] == Rename(TempOf(path), path);
  }

  /**
   * A crash anywhere in an operation, and for any way the file is written piece by piece: afterwards the
   * store holds either exactly what it held before or exactly what the operation was to make of it.
   */
  lemma CrashIsAllOrNothing(c: Config, d: Disk, m: Local, op: Op, pieces: seq<string>, n: nat)
    requires ReadsBack(c.codec) && Mirrors(c, d, m) && ValidId(IdOf(op))
    requires IntentOf(c, d, op, true).Write? && Joined(pieces) == c.codec.encode(IntentOf(c, d, op, true).rec)
    requires n <= |pieces| + 2
    ensures var path := PathOf(c.dir, IdOf(op));
            var d' := AllActed(d, WriteActions(path, pieces)[..n]);
            Mirrors(c, d', if n == |pieces| + 2 then OnLocal(m, op).0 else m)
  {
    var path := PathOf(c.dir, IdOf(op));
    var list := WriteActions(path, pieces);
    IntentMirrors(c, d, m, op);
    if n == |pieces| + 2 {
      AfterRename(c, d, path, IntentOf(c, d, op, true).rec, pieces);
      assert list[..n] == list;
      FileOperationAgrees(c, d, m, op, Fine);
    } else {
      BeforeRename(d, path, pieces, n);
      var d' := AllActed(d, list[..n]);
      hide IntentOf, OnLocal, Mirrors, PathOf, TempOf, AllActed, WriteActions, Joined;
      forall id ensures SamePath(d, d', PathOf(c.dir, id)) {
        TempIsNoPath(c.dir, path, id);
        assert SamePath(d - {TempOf(path)}, d' - {TempOf(path)}, PathOf(c.dir, id));
      }
      UntouchedMirrors(c, d, d', m);
    }
  }

  // --- histories with failures and crashes ---------------------------------------------------------------------

  /** How one operation of a history ended. */
  datatype Fate = Ended(luck: Luck) | Crashed(pieces: seq<string>, n: nat)

  datatype Attempt = Attempt(op: Op, fate: Fate)

  predicate Possible(c: Config, d: Disk, a: Attempt)
  {
    && ValidId(IdOf(a.op))
    && (a.fate.Crashed? && IntentOf(c, d, a.op, true).Write? ==>
          Joined(a.fate.pieces) == c.codec.encode(IntentOf(c, d, a.op, true).rec) && a.fate.n <= |a.fate.pieces| + 2)
  }

  function DiskAfter(c: Config, d: Disk, a: Attempt): (r: Disk)
    requires Possible(c, d, a)
  {
    match a.fate
    case Ended(luck) => OnDisk(c, d, a.op, luck).0
    case Crashed(pieces, n) =>
      if IntentOf(c, d, a.op, true).Write? then AllActed(d, WriteActions(PathOf(c.dir, IdOf(a.op)), pieces)[..n]) else d
  }

  /** The runs an attempt leaves: all of a crashed operation if its rename came to pass, and nothing of it otherwise. */
  function LocalAfter(m: Local, a: Attempt): (m': Local)
  {
    match a.fate
    case Ended(luck) => EndedWith(m, a.op, luck)
    case Crashed(pieces, n) => if n == |pieces| + 2 then OnLocal(m, a.op).0 else m
  }

  /** An attempt that ended well replied as the in-memory store does, and one that failed says so. */
  predicate AnswersFor(c: Config, d: Disk, m: Local, a: Attempt)
  {
    match a.fate
    case Crashed(_, _) => true
    case Ended(luck) =>
      var reply, reply' := OnDisk(c, d, a.op, luck).1, OnLocal(m, a.op).1;
      if luck == Fine then reply == reply'
      else if Blind(a.op, luck) then reply == Done(None)
      else reply == reply' || Refused(reply)
  }

  lemma AttemptAgrees(c: Config, d: Disk, m: Local, a: Attempt)
    requires ReadsBack(c.codec) && Mirrors(c, d, m) && Possible(c, d, a)
    ensures Mirrors(c, DiskAfter(c, d, a), LocalAfter(m, a))
    ensures AnswersFor(c, d, m, a)
  {
    IntentMirrors(c, d, m, a.op);
    match a.fate {
      case Ended(luck) => FileOperationAgrees(c, d, m, a.op, luck);
      case Crashed(pieces, n) =>
        if IntentOf(c, d, a.op, true).Write? {
          CrashIsAllOrNothing(c, d, m, a.op, pieces, n);
        }
    }
    hide OnLocal, IntentOf, OnDisk, Mirrors, WriteActions;
  }

  /** Every attempt is possible where it is made. */
  ghost predicate AllPossible(c: Config, d: Disk, list: seq<Attempt>)
    decreases |list|
  {
    list == [] || (Possible(c, d, list[0]) && AllPossible(c, DiskAfter(c, d, list[0]), list[1..]))
  }

  ghost predicate RepliesAgree(c: Config, d: Disk, m: Local, list: seq<Attempt>)
    requires AllPossible(c, d, list)
    decreases |list|
  {
    list == []
    || (&& AnswersFor(c, d, m, list[0])
        && RepliesAgree(c, DiskAfter(c, d, list[0]), LocalAfter(m, list[0]), list[1..]))
  }

  /**
   * Over every history of operations on valid ids, however many of them fail or are cut off by a crash: the
   * file store answers as an in-memory store that has seen the operations which took effect, and only those;
   * a blind create counts as one that puts its record, whether or not there was a run.
   */
  lemma {:induction false} FilesAgree(c: Config, d: Disk, m: Local, list: seq<Attempt>)
    requires ReadsBack(c.codec) && Mirrors(c, d, m) && AllPossible(c, d, list)
    ensures RepliesAgree(c, d, m, list)
    decreases |list|
  {
    hide Mirrors, OnDisk, OnLocal, DiskAfter, LocalAfter, Possible, AnswersFor;
    if list != [] {
      AttemptAgrees(c, d, m, list[0]);
      FilesAgree(c, DiskAfter(c, d, list[0]), LocalAfter(m, list[0]), list[1..]);
    }
  }

  /** The same from an empty directory and an empty store. */
  lemma FreshFilesAgree(c: Config, list: seq<Attempt>)
    requires ReadsBack(c.codec) && AllPossible(c, map[], list)
    ensures RepliesAgree(c, map[], Local(map[], []), list)
  {
    assert Mirrors(c, map[], Local(map[], []));
    hide Mirrors, ReadsBack;
    FilesAgree(c, map[], Local(map[], []), list);
  }
}
