/** A remote command's output: the channels of a message stream, separated again under a byte budget. */
module RemoteCommand {
  import opened Basics
  import opened GoStrings
  import opened WebSocket
  import opened Messages

  const STDOUT: Byte := 1
  const STDERR: Byte := 2
  const STATUS: Byte := 3

  // --- the exit code --------------------------------------------------------------------------

  datatype Cause = Cause(reason: string, message: string)

  datatype Status = Status(status: string, causes: seq<Cause>)

  /** Unicode simple case folding, as far as it can reach an ASCII letter. */
  function Folded(c: char): (r: char)
  {
    if 'A' <= c <= 'Z' then (c as int + 32) as char
    else if c == '\U{17f}' then 's'
    else if c == '\U{212a}' then 'k'
    else c
  }

  predicate EqualFold(s: string, ascii: string)
  {
    |s| == |ascii| && forall i :: 0 <= i < |s| ==> Folded(s[i]) == Folded(ascii[i])
  }

  predicate Lower(c: char)
  {
    'a' <= c <= 'z'
  }

  /** The same letter, in either case, or one of the two other characters that fold to an ASCII letter. */
  predicate SameLetter(c: char, d: char)
  {
    || c == d
    || (Lower(c) && d as int == c as int - 32) || (Lower(d) && c as int == d as int - 32)
    || (c == '\U{17f}' && d in "sS") || (c == '\U{212a}' && d in "kK")
  }

  /** Comparing without case against an ASCII word is comparing letter by letter, and nothing else counts as equal. */
  lemma FoldingMeans(s: string, ascii: string)
    requires forall i :: 0 <= i < |ascii| ==> ascii[i] as int < 128
    ensures EqualFold(s, ascii) <==> |s| == |ascii| && forall i :: 0 <= i < |s| ==> SameLetter(s[i], ascii[i])
  {
    forall i | 0 <= i < |s| && |s| == |ascii| ensures Folded(s[i]) == Folded(ascii[i]) <==> SameLetter(s[i], ascii[i]) {
      FoldedMeans(s[i], ascii[i]);
    }
    hide Folded, SameLetter;
  }

  lemma FoldedMeans(c: char, d: char)
    requires d as int < 128
    ensures Folded(c) == Folded(d) <==> SameLetter(c, d)
  {
  }

  /** The exit code in a status: the first cause that names one decides; a failure without one is 1. */
  function ExitCode(s: Status): (r: Result<int>)
  {
    if EqualFold(s.status, "Success") then Ok(0) else CauseCode(s.causes)
  }

  function CauseCode(causes: seq<Cause>): (r: Result<int>)
  {
    if causes == [] then Ok(1)
    else if EqualFold(causes[0].reason, "ExitCode") then
      match Atoi(TrimSpace(causes[0].message))
      case Some(code) => Ok(code)
      case None => Err("MAS-4213")
    else CauseCode(causes[1..])
  }

  method ExitCodeFrom(status: Option<Status>) returns (code: Result<int>)
    ensures code == (if status.None? then Err("MAS-4213") else ExitCode(status.value))
  {
    if status.None? {
      return Err("MAS-4213");
    }
    if EqualFold(status.value.status, "Success") {
      return Ok(0);
    }
    var causes := status.value.causes;
    for i := 0 to |causes|
      invariant CauseCode(causes) == CauseCode(causes[i..])
    {
      if EqualFold(causes[i].reason, "ExitCode") {
        var n := Atoi(TrimSpace(causes[i].message));
        return if n.None? then Err("MAS-4213") else Ok(n.value);
      }
    }
    return Ok(1);
  }

  /** Cause `i` is the first one that carries an exit code. */
  ghost predicate Decides(causes: seq<Cause>, i: int)
  {
    && 0 <= i < |causes| && EqualFold(causes[i].reason, "ExitCode")
    && forall j :: 0 <= j < i ==> !EqualFold(causes[j].reason, "ExitCode")
  }

  lemma LaterDecides(causes: seq<Cause>, i: int)
    requires causes != [] && !EqualFold(causes[0].reason, "ExitCode")
    ensures Decides(causes, i + 1) <==> Decides(causes[1..], i)
  {
    hide EqualFold;
    var rest := causes[1..];
    assert forall j :: 0 <= j < |rest| ==> rest[j] == causes[j + 1];
    if Decides(rest, i) {
      assert forall j :: 0 < j < i + 1 ==> causes[j] == rest[j - 1];
    }
  }

  lemma {:induction false} CauseMeaning(causes: seq<Cause>)
    ensures forall i :: Decides(causes, i) ==>
              CauseCode(causes) == match Atoi(TrimSpace(causes[i].message))
                                   case Some(code) => Ok(code)
                                   case None => Err("MAS-4213")
    ensures (forall i :: !Decides(causes, i)) ==> CauseCode(causes) == Ok(1)
  {
    hide EqualFold, Atoi, TrimSpace;
    if causes != [] && !EqualFold(causes[0].reason, "ExitCode") {
      var rest := causes[1..];
      CauseMeaning(rest);
      forall i ensures Decides(causes, i + 1) <==> Decides(rest, i) {
        LaterDecides(causes, i);
      }
      forall i | Decides(causes, i) ensures Decides(rest, i - 1) {
        LaterDecides(causes, i - 1);
      }
    } else if causes != [] {
      assert Decides(causes, 0);
      forall i | Decides(causes, i) ensures i == 0 {
      }
    }
  }

  /**
   * What a status says: success is 0, and only success or a cause; otherwise the first cause that carries an exit
   * code decides, a code that is no number is an error, and without such a cause it is 1.
   */
  lemma ExitMeaning(s: Status)
    ensures EqualFold(s.status, "Success") ==> ExitCode(s) == Ok(0)
    ensures !EqualFold(s.status, "Success") ==>
              && (forall i :: Decides(s.causes, i) ==>
                    (ExitCode(s) == match Atoi(TrimSpace(s.causes[i].message))
                                    case Some(code) => Ok(code)
                                    case None => Err("MAS-4213")))
              && ((forall i :: !Decides(s.causes, i)) ==> ExitCode(s) == Ok(1))
    ensures ExitCode(s) == Ok(0)
       <==> EqualFold(s.status, "Success")
            || exists i :: Decides(s.causes, i) && Atoi(TrimSpace(s.causes[i].message)) == Some(0)
  {
    hide EqualFold, Atoi, TrimSpace, Decides, CauseCode;
    CauseMeaning(s.causes);
  }

  // --- the messages of a connection -----------------------------------------------------------------

  datatype Packet = Packet(opcode: Nibble, payload: seq<Byte>)

  lemma {:induction false} ReceivingShrinks(net: Net, w: Wire, p: Partial)
    ensures Received(net, w, p).0.Message? ==> |Received(net, w, p).1.incoming| < |w.incoming|
    decreases |w.incoming|
  {
    hide Parsed, Received, Handled;
    ReceivedUnfolds(net, w, p);
    ParsedShrinks(w.incoming, net.severed);
    var r := Parsed(w.incoming, net.severed);
    if r.Got? {
      var h := Handled(net, w.(incoming := r.rest), p, r.frame);
      HandledKeepsInput(net, w.(incoming := r.rest), p, r.frame);
      if h.0.More? {
        ReceivingShrinks(net, h.1, h.0.partial);
      }
    }
  }

  /** Every message up to the first error, and that error. */
  function AllMessages(net: Net, w: Wire): (r: (seq<Packet>, ReadError))
    decreases |w.incoming|
  {
    ReceivingShrinks(net, w, Idle);
    var (r, w') := Received(net, w, Idle);
    match r
    case NoMessage(error) => ([], error)
    case Message(opcode, payload) =>
      var (more, error) := AllMessages(net, w');
      ([Packet(opcode, payload)] + more, error)
  }

  // --- demultiplexing -----------------------------------------------------------------------------

  datatype Request = Request(maxBytes: int, decode: seq<Byte> -> Option<Status>)

  datatype ExecResult = ExecResult(stdout: seq<Byte>, stderr: seq<Byte>, exit: Option<int>, truncated: bool)

  /** What has been written to the two builders, and what is known of the result. */
  datatype Sink = Sink(out: seq<Byte>, err: seq<Byte>, exit: Option<int>, truncated: bool)

  predicate IsOutput(channel: Byte)
  {
    channel == STDOUT || channel == STDERR
  }

  function Into(s: Sink, channel: Byte, data: seq<Byte>): (r: Sink)
  {
    if channel == STDERR then s.(err := s.err + data) else s.(out := s.out + data)
  }

  function WithOutput(s: Sink, max: int, channel: Byte, data: seq<Byte>): (r: Sink)
  {
    var remaining := max - (|s.out| + |s.err|);
    if max > 0 && remaining <= 0 then s.(truncated := true)
    else if max > 0 && |data| > remaining then Into(s.(truncated := true), channel, data[..remaining])
    else Into(s, channel, data)
  }

  /** One message: the new sink, or the code of an error. */
  function Taken(req: Request, s: Sink, m: Packet): (r: Result<Sink>)
  {
    if m.opcode != BINARY || m.payload == [] then Err("MAS-4213")
    else if IsOutput(m.payload[0]) then Ok(WithOutput(s, req.maxBytes, m.payload[0], m.payload[1..]))
    else if m.payload[0] == STATUS then
      var status := req.decode(m.payload[1..]);
      match (if status.None? then Err("MAS-4213") else ExitCode(status.value))
      case Ok(code) => Ok(s.(exit := Some(code)))
      case Err(e) => Err(e)
    else Err("MAS-4213")
  }

  /** On an error the output gathered so far is not handed over. */
  function Failure(s: Sink): (r: ExecResult)
  {
    ExecResult([], [], s.exit, s.truncated)
  }

  function Demuxed(req: Request, s: Sink, list: seq<Packet>, ending: ReadError): (r: (ExecResult, Option<string>))
    decreases |list|
  {
    if list == [] then
      if !IsEnd(ending) then (Failure(s), Some("MAS-4213"))
      else (ExecResult(s.out, s.err, s.exit, s.truncated), if s.exit.None? then Some("MAS-4214") else None)
    else
      match Taken(req, s, list[0])
      case Err(code) => (Failure(s), Some(code))
      case Ok(s') => Demuxed(req, s', list[1..], ending)
  }

  lemma Next(net: Net, w: Wire)
    ensures var (r, w') := Received(net, w, Idle);
            var (list, error) := AllMessages(net, w);
            match r
            case NoMessage(e) => list == [] && error == e
            case Message(opcode, payload) =>
              && |w'.incoming| < |w.incoming|
              && list != [] && list[0] == Packet(opcode, payload)
              && list[1..] == AllMessages(net, w').0 && error == AllMessages(net, w').1
  {
    ReceivingShrinks(net, w, Idle);
    hide Received;
  }

  method ReadRemoteCommand(conn: Conn, req: Request) returns (res: ExecResult, error: Option<string>)
    modifies conn
    ensures var (list, ending) := AllMessages(conn.net, old(conn.View()));
            (res, error) == Demuxed(req, Sink([], [], None, false), list, ending)
  {
    hide Received, AllMessages, ExitCode;
    ghost var net := conn.net;
    ghost var (list, ending) := AllMessages(net, conn.View());
    var out, errOut: seq<Byte>, exit: Option<int>, truncated := [], [], None, false;
    while true
      invariant conn.net == net && AllMessages(net, conn.View()).1 == ending
      invariant Demuxed(req, Sink([], [], None, false), list, ending)
             == Demuxed(req, Sink(out, errOut, exit, truncated), AllMessages(net, conn.View()).0, ending)
      decreases |conn.incoming|
    {
      Next(net, conn.View());
      ghost var s := Sink(out, errOut, exit, truncated);
      var m := conn.ReadMessage();
      if m.NoMessage? {
        if IsEnd(m.error) {
          break;
        }
        return ExecResult([], [], exit, truncated), Some("MAS-4213");
      }
      if m.opcode != BINARY || m.payload == [] {
        return ExecResult([], [], exit, truncated), Some("MAS-4213");
      }
      var channel, data := m.payload[0], m.payload[1..];
      if channel == STDOUT || channel == STDERR {
        if req.maxBytes > 0 {
          var remaining := req.maxBytes - (|out| + |errOut|);
          if remaining <= 0 {
            truncated := true;
            continue;
          }
          if |data| > remaining {
            data, truncated := data[..remaining], true;
          }
        }
        if channel == STDERR {
          errOut := errOut + data;
        } else {
          out := out + data;
        }
      } else if channel == STATUS {
        var code := ExitCodeFrom(req.decode(data));
        if code.Err? {
          return ExecResult([], [], exit, truncated), Some(code.code);
        }
        exit := Some(code.value);
      } else {
        return ExecResult([], [], exit, truncated), Some("MAS-4213");
      }
    }
    res := ExecResult(out, errOut, exit, truncated);
    error := if exit.None? then Some("MAS-4214") else None;
  }

  // --- what the output is ------------------------------------------------------------------------------

  /** A byte and the channel it was sent on. */
  datatype Tagged = Tagged(channel: Byte, byte: Byte)

  function Tag(channel: Byte, data: seq<Byte>): (r: seq<Tagged>)
    ensures |r| == |data|
  {
    seq(|data|, i requires 0 <= i < |data| => Tagged(channel, data[i]))
  }

  /** Channels 1 and 2 of the protocol carry what the command wrote, channel 3 its status. */
  predicate Carries(m: Packet)
  {
    m.opcode == 2 && m.payload != [] && (m.payload[0] == 1 || m.payload[0] == 2)
  }

  /** Everything the command wrote, interleaved as it was sent. */
  function Stream(list: seq<Packet>): (out: seq<Tagged>)
  {
    if list == [] then []
    else
      var m := list[|list| - 1];
      Stream(list[..|list| - 1]) + (if Carries(m) then Tag(m.payload[0], m.payload[1..]) else [])
  }

  /** The bytes of one of the two channels. */
  function Side(stream: seq<Tagged>, stderr: bool): (out: seq<Byte>)
  {
    if stream == [] then []
    else
      var t := stream[|stream| - 1];
      Side(stream[..|stream| - 1], stderr) + (if (t.channel == 2) == stderr then [t.byte] else [])
  }

  function Kept(stream: seq<Tagged>, max: int): (out: seq<Tagged>)
  {
    if 0 < max < |stream| then stream[..max] else stream
  }

  /** A data frame, possibly empty, arrives when the budget is already used up. */
  predicate Late(list: seq<Packet>, max: int)
  {
    max > 0 && exists i :: 0 <= i < |list| && Carries(list[i]) && |Stream(list[..i])| >= max
  }

  /** A message this protocol has. */
  predicate WellFormed(req: Request, m: Packet)
  {
    && m.opcode == 2 && m.payload != []
    && (m.payload[0] == 1 || m.payload[0] == 2 || (m.payload[0] == 3 && StatusCode(req, m).Ok?))
  }

  function StatusCode(req: Request, m: Packet): (r: Result<int>)
    requires m.payload != []
  {
    var status := req.decode(m.payload[1..]);
    if status.None? then Err("MAS-4213") else ExitCode(status.value)
  }

  /** The exit code in the last status frame. */
  function LastExit(req: Request, list: seq<Packet>): (r: Option<int>)
  {
    if list == [] then None
    else
      var m := list[|list| - 1];
      if m.opcode == 2 && m.payload != [] && m.payload[0] == 3 && StatusCode(req, m).Ok? then
        Some(StatusCode(req, m).value)
      else LastExit(req, list[..|list| - 1])
  }

  /** The sink after some well-formed messages. */
  predicate Holds(req: Request, s: Sink, list: seq<Packet>)
  {
    var kept := Kept(Stream(list), req.maxBytes);
    && s.out == Side(kept, false) && s.err == Side(kept, true)
    && s.exit == LastExit(req, list)
    && (s.truncated <==> kept != Stream(list) || Late(list, req.maxBytes))
  }

  lemma {:induction false} SideConcat(a: seq<Tagged>, b: seq<Tagged>, stderr: bool)
    ensures Side(a + b, stderr) == Side(a, stderr) + Side(b, stderr)
    decreases |b|
  {
    if b == [] {
      assert a + b == a && Side(a, stderr) + [] == Side(a, stderr);
    } else {
      var init, last := b[..|b| - 1], b[|b| - 1];
      assert (a + b)[..|a + b| - 1] == a + init;
      SideConcat(a, init, stderr);
      var piece := if (last.channel == STDERR) == stderr then [last.byte] else [];
      assert Side(a, stderr) + (Side(init, stderr) + piece) == Side(a, stderr) + Side(init, stderr) + piece;
    }
  }

  lemma {:induction false} SideOfTag(channel: Byte, data: seq<Byte>, stderr: bool)
    ensures Side(Tag(channel, data), stderr) == if (channel == STDERR) == stderr then data else []
  {
    if data != [] {
      var init := data[..|data| - 1];
      SideOfTag(channel, init, stderr);
      assert Tag(channel, data)[..|data| - 1] == Tag(channel, init);
      assert data == init + [data[|data| - 1]];
    }
  }

  lemma {:induction false} SidesAddUp(stream: seq<Tagged>)
    ensures |Side(stream, false)| + |Side(stream, true)| == |stream|
  {
    if stream != [] {
      SidesAddUp(stream[..|stream| - 1]);
    }
  }

  lemma StreamSnoc(list: seq<Packet>, m: Packet)
    ensures Stream(list + [m]) == Stream(list) + (if Carries(m) then Tag(m.payload[0], m.payload[1..]) else [])
  {
    assert (list + [m])[..|list|] == list;
  }

  lemma LateSnoc(list: seq<Packet>, m: Packet, max: int)
    ensures Late(list + [m], max) <==> Late(list, max) || (max > 0 && Carries(m) && |Stream(list)| >= max)
  {
    var all := list + [m];
    assert all[..|list|] == list && all[|list|] == m;
    assert forall i :: 0 <= i < |list| ==> all[..i] == list[..i] && all[i] == list[i];
    if Late(list, max) {
      var i :| 0 <= i < |list| && Carries(list[i]) && |Stream(list[..i])| >= max;
      assert Carries(all[i]) && |Stream(all[..i])| >= max;
    }
  }

  lemma IntoSides(s: Sink, kept: seq<Tagged>, channel: Byte, data: seq<Byte>)
    requires s.out == Side(kept, false) && s.err == Side(kept, true)
    ensures var s', kept' := Into(s, channel, data), kept + Tag(channel, data);
            s'.out == Side(kept', false) && s'.err == Side(kept', true)
  {
    hide Side, Tag;
    SideConcat(kept, Tag(channel, data), false);
    SideConcat(kept, Tag(channel, data), true);
    SideOfTag(channel, data, false);
    SideOfTag(channel, data, true);
    assert s.out + [] == s.out && s.err + [] == s.err;
  }

  lemma OutputStep(s: Sink, max: int, stream: seq<Tagged>, late: bool, channel: Byte, data: seq<Byte>)
    requires var kept := Kept(stream, max);
             && s.out == Side(kept, false) && s.err == Side(kept, true)
             && (s.truncated <==> kept != stream || late)
    ensures var s', stream' := WithOutput(s, max, channel, data), stream + Tag(channel, data);
            var kept' := Kept(stream', max);
            && s'.out == Side(kept', false) && s'.err == Side(kept', true) && s'.exit == s.exit
            && (s'.truncated <==> kept' != stream' || late || (max > 0 && |stream| >= max))
  {
    var kept, added := Kept(stream, max), Tag(channel, data);
    SidesAddUp(kept);
    hide Side;
    if max > 0 && |stream| >= max {
      assert (stream + added)[..max] == kept;
      assert added == [] ==> stream + added == stream;
    } else if max > 0 && |data| > max - |stream| {
      var n := max - |stream|;
      IntoSides(s.(truncated := true), kept, channel, data[..n]);
      assert Tag(channel, data[..n]) == added[..n];
      assert (stream + added)[..max] == stream + added[..n];
      assert |kept + added[..n]| < |stream + added|;
    } else {
      IntoSides(s, kept, channel, data);
    }
  }

  lemma TakenHolds(req: Request, s: Sink, list: seq<Packet>, m: Packet)
    requires Holds(req, s, list) && WellFormed(req, m)
    ensures Taken(req, s, m).Ok? && Holds(req, Taken(req, s, m).value, list + [m])
  {
    hide Stream, Side, Kept, ExitCode, Late, WithOutput;
    StreamSnoc(list, m);
    LateSnoc(list, m, req.maxBytes);
    ExitSnoc(req, list, m);
    if IsOutput(m.payload[0]) {
      OutputStep(s, req.maxBytes, Stream(list), Late(list, req.maxBytes), m.payload[0], m.payload[1..]);
    } else {
      assert Stream(list) + [] == Stream(list);
    }
  }

  lemma ExitSnoc(req: Request, list: seq<Packet>, m: Packet)
    requires WellFormed(req, m)
    ensures LastExit(req, list + [m]) == if m.payload[0] == STATUS then Some(StatusCode(req, m).value) else LastExit(req, list)
  {
    hide ExitCode;
    assert (list + [m])[..|list|] == list;
  }

  predicate AllWellFormed(req: Request, list: seq<Packet>)
  {
    forall i :: 0 <= i < |list| ==> WellFormed(req, list[i])
  }

  lemma {:induction false} DemuxHolds(req: Request, s: Sink, done: seq<Packet>, list: seq<Packet>) returns (last: Sink)
    requires Holds(req, s, done) && AllWellFormed(req, list)
    ensures Holds(req, last, done + list)
    ensures forall ending :: Demuxed(req, s, list, ending) == Demuxed(req, last, [], ending)
    decreases |list|
  {
    hide Holds, WellFormed, Taken;
    if list == [] {
      last := s;
      assert done + list == done;
    } else {
      TakenHolds(req, s, done, list[0]);
      last := DemuxHolds(req, Taken(req, s, list[0]).value, done + [list[0]], list[1..]);
      assert done + list == done + [list[0]] + list[1..];
    }
  }

  /**
   * On messages of the protocol up to what counts as the end: the two outputs are the two sides of the first
   * MaxBytes bytes that were written, on whichever channel; the exit code is that of the last status; and
   * without a status there is an error. Truncated is set when a byte was lost, and besides only when a frame
   * came too late to have a byte to lose.
   */
  lemma OutputIsSplit(req: Request, list: seq<Packet>, ending: ReadError)
    requires AllWellFormed(req, list) && IsEnd(ending)
    ensures var (res, error) := Demuxed(req, Sink([], [], None, false), list, ending);
            var kept := Kept(Stream(list), req.maxBytes);
            && res.stdout == Side(kept, false) && res.stderr == Side(kept, true)
            && |res.stdout| + |res.stderr| == |kept|
            && res.exit == LastExit(req, list)
            && (error == if LastExit(req, list).None? then Some("MAS-4214") else None)
            && (res.truncated <==> |kept| < |Stream(list)| || Late(list, req.maxBytes))
  {
    assert Holds(req, Sink([], [], None, false), []);
    hide Holds, WellFormed, Taken, LastExit, Stream, Side, Late;
    var last := DemuxHolds(req, Sink([], [], None, false), [], list);
    assert [] + list == list;
    FromHolds(req, last, list);
    SidesAddUp(Kept(Stream(list), req.maxBytes));
  }

  lemma FromHolds(req: Request, s: Sink, list: seq<Packet>)
    requires Holds(req, s, list)
    ensures var kept := Kept(Stream(list), req.maxBytes);
            && s.out == Side(kept, false) && s.err == Side(kept, true) && s.exit == LastExit(req, list)
            && (s.truncated <==> |kept| < |Stream(list)| || Late(list, req.maxBytes))
  {
    hide Side, LastExit, Late;
  }

  lemma TakenIsWellFormed(req: Request, s: Sink, m: Packet)
    ensures Taken(req, s, m).Ok? <==> WellFormed(req, m)
  {
    hide ExitCode, WithOutput;
  }

  lemma {:induction false} OnlyWellFormed(req: Request, s: Sink, list: seq<Packet>, ending: ReadError)
    requires Demuxed(req, s, list, ending).1 == None
    ensures AllWellFormed(req, list) && IsEnd(ending)
    decreases |list|
  {
    hide WellFormed, Taken;
    if list != [] {
      TakenIsWellFormed(req, s, list[0]);
      OnlyWellFormed(req, Taken(req, s, list[0]).value, list[1..], ending);
    }
  }

  /** No error: exactly when every message was of the protocol, the reading came to an end, and a status arrived. */
  lemma NoErrorMeansAll(req: Request, list: seq<Packet>, ending: ReadError)
    ensures Demuxed(req, Sink([], [], None, false), list, ending).1 == None
       <==> AllWellFormed(req, list) && IsEnd(ending) && LastExit(req, list).Some?
  {
    hide Taken, WellFormed, LastExit, Holds;
    if AllWellFormed(req, list) && IsEnd(ending) {
      OutputIsSplit(req, list, ending);
    }
    if Demuxed(req, Sink([], [], None, false), list, ending).1 == None {
      OnlyWellFormed(req, Sink([], [], None, false), list, ending);
    }
  }

  lemma ExitErrors(s: Status)
    ensures ExitCode(s).Err? ==> ExitCode(s).code == "MAS-4213"
  {
    hide EqualFold, Atoi, TrimSpace;
    CauseErrors(s.causes);
  }

  lemma {:induction false} CauseErrors(causes: seq<Cause>)
    ensures CauseCode(causes).Err? ==> CauseCode(causes).code == "MAS-4213"
  {
    hide EqualFold, Atoi, TrimSpace;
    if causes != [] {
      CauseErrors(causes[1..]);
    }
  }

  lemma TakenErrors(req: Request, s: Sink, m: Packet)
    ensures Taken(req, s, m).Err? ==> Taken(req, s, m).code == "MAS-4213"
  {
    hide ExitCode, WithOutput;
    if m.payload != [] && req.decode(m.payload[1..]).Some? {
      ExitErrors(req.decode(m.payload[1..]).value);
    }
  }

  lemma {:induction false} FailureIsProtocol(req: Request, s: Sink, list: seq<Packet>, ending: ReadError)
    requires !(AllWellFormed(req, list) && IsEnd(ending))
    ensures Demuxed(req, s, list, ending).1 == Some("MAS-4213")
    decreases |list|
  {
    hide WellFormed, Taken;
    if list != [] {
      TakenErrors(req, s, list[0]);
      TakenIsWellFormed(req, s, list[0]);
      if Taken(req, s, list[0]).Ok? {
        assert AllWellFormed(req, list[1..]) ==> AllWellFormed(req, list);
        FailureIsProtocol(req, Taken(req, s, list[0]).value, list[1..], ending);
      }
    }
  }

  /**
   * Which error there is: MAS-4213 for any message that is not of the protocol and for a stream that breaks,
   * MAS-4214 for one that ends without a status, and none otherwise.
   */
  lemma ErrorMeaning(req: Request, list: seq<Packet>, ending: ReadError)
    ensures Demuxed(req, Sink([], [], None, false), list, ending).1
         == if !(AllWellFormed(req, list) && IsEnd(ending)) then Some("MAS-4213")
            else if LastExit(req, list).None? then Some("MAS-4214")
            else None
  {
    hide Taken, WellFormed, LastExit, Demuxed;
    if AllWellFormed(req, list) && IsEnd(ending) {
      OutputIsSplit(req, list, ending);
    } else {
      FailureIsProtocol(req, Sink([], [], None, false), list, ending);
    }
  }

  // --- from the bytes on the wire ----------------------------------------------------------------------------

  /** The messages a server means to send, each with the frames it sends it in. */
  function Packets(script: seq<seq<Piece>>): (list: seq<Packet>)
    ensures |list| == |script|
  {
    if script == [] then [] else [Packet(BINARY, PayloadOf(script[0]))] + Packets(script[1..])
  }

  predicate AllSendable(script: seq<seq<Piece>>)
  {
    forall i :: 0 <= i < |script| ==> Sendable(script[i]) && PingsFit(script[i])
  }

  function Wired(script: seq<seq<Piece>>): (out: seq<Byte>)
    requires AllSendable(script)
  {
    if script == [] then []
    else
      assert AllSendable(script[1..]);
      StreamOf(script[0], BINARY, false) + Wired(script[1..])
  }

  function AllPings(script: seq<seq<Piece>>): (n: nat)
  {
    if script == [] then 0 else PingCount(script[0]) + AllPings(script[1..])
  }

  /** Whatever was sent before, a connection with these bytes to come has no message, only this end. */
  ghost predicate EndsAt(net: Net, tail: seq<Byte>, ending: ReadError)
  {
    forall w: Wire :: w.incoming == tail ==> AllMessages(net, w) == ([], ending)
  }

  lemma CloseEnds(net: Net, close: Frame, form: Form, rest: seq<Byte>)
    requires close.opcode == CLOSE && Allowed(form, |close.payload|)
    ensures EndsAt(net, Encoded(close, form) + rest, EndOfStream)
  {
    hide Parsed, Encoded, Received, AllMessages;
    forall w: Wire | w.incoming == Encoded(close, form) + rest ensures AllMessages(net, w) == ([], EndOfStream) {
      FrameIsRead(close, form, rest, net.severed);
      ReceivedUnfolds(net, w, Idle);
      Next(net, w);
    }
  }

  /** A frame of which the header came and nothing else. */
  lemma HeaderOnlyEnds(net: Net, tail: seq<Byte>)
    requires HeaderOnly(tail) && !net.severed
    ensures EndsAt(net, tail, WrappedEnd)
  {
    WrappedEndMeans(tail);
    hide Parsed, HeaderOnly, Received, AllMessages;
    forall w: Wire | w.incoming == tail ensures AllMessages(net, w) == ([], WrappedEnd) {
      ReceivedUnfolds(net, w, Idle);
      Next(net, w);
    }
  }

  lemma {:induction false} ScriptArrives(net: Net, w: Wire, script: seq<seq<Piece>>, tail: seq<Byte>, ending: ReadError)
    requires AllSendable(script) && WritesSucceed(net, w.tries, AllPings(script))
    requires w.incoming == Wired(script) + tail && EndsAt(net, tail, ending)
    ensures AllMessages(net, w) == (Packets(script), ending)
    decreases |script|
  {
    hide Received, AllMessages, Pongs, PayloadOf, StreamOf, PingCount, Sendable, PingsFit, EndsAt;
    if script == [] {
      assert Wired(script) + tail == tail;
      NothingArrives(net, w, tail, ending);
    } else {
      var rest := Wired(script[1..]) + tail;
      SendableIsAllowed(script[0]);
      assert w.incoming == StreamOf(script[0], BINARY, false) + rest;
      MessageArrives(net, w, script[0], BINARY, rest);
      Next(net, w);
      ScriptArrives(net, Received(net, w, Idle).1, script[1..], tail, ending);
      var list := AllMessages(net, w).0;
      assert list == [list[0]] + list[1..];
    }
  }

  lemma NothingArrives(net: Net, w: Wire, tail: seq<Byte>, ending: ReadError)
    requires w.incoming == tail && EndsAt(net, tail, ending)
    ensures AllMessages(net, w) == ([], ending)
  {
  }

  /**
   * From the wire to the result: however the server fragments its messages and whatever pings it sends, if the
   * messages are those of the protocol, what ReadRemoteCommand reports is what OutputIsSplit says of them.
   */
  lemma WireToOutput(net: Net, w: Wire, script: seq<seq<Piece>>, tail: seq<Byte>, ending: ReadError, req: Request)
    requires AllSendable(script) && WritesSucceed(net, w.tries, AllPings(script))
    requires w.incoming == Wired(script) + tail && EndsAt(net, tail, ending) && IsEnd(ending)
    requires AllWellFormed(req, Packets(script))
    ensures var (list, ended) := AllMessages(net, w);
            var (res, error) := Demuxed(req, Sink([], [], None, false), list, ended);
            var kept := Kept(Stream(Packets(script)), req.maxBytes);
            && res.stdout == Side(kept, false) && res.stderr == Side(kept, true)
            && (error.None? <==> LastExit(req, Packets(script)).Some?)
            && (|kept| < |Stream(Packets(script))| ==> res.truncated)
  {
    hide AllMessages, Demuxed, Stream, Side, LastExit, AllWellFormed, Late, Packets, Wired, EndsAt;
    ScriptArrives(net, w, script, tail, ending);
    OutputIsSplit(req, Packets(script), ending);
  }

  // --- ends that are none ---------------------------------------------------------------------------------------

  /** The message under way when the last frame was to be read, and the bytes that were there for it. */
  function LastRead(net: Net, w: Wire, p: Partial): (r: (Partial, seq<Byte>))
    decreases |w.incoming|
  {
    match Parsed(w.incoming, net.severed)
    case Stopped(_, _) => (p, w.incoming)
    case Got(f, rest) =>
      var (progress, w') := Handled(net, w.(incoming := rest), p, f);
      if progress.Done? then (p, w.incoming) else LastRead(net, w', progress.partial)
  }

  /** Where the reading of all messages stood in the end. */
  function Standing(net: Net, w: Wire): (r: (Partial, seq<Byte>))
    decreases |w.incoming|
  {
    ReceivingShrinks(net, w, Idle);
    var (m, w') := Received(net, w, Idle);
    if m.Message? then Standing(net, w') else LastRead(net, w, Idle)
  }

  /** The frame that ended the reading of one message without one: a close, or one that is not all there. */
  ghost predicate Stood(net: Net, error: ReadError, s: seq<Byte>)
  {
    match Parsed(s, net.severed)
    case Stopped(e, _) => error == e
    case Got(f, _) => error == EndOfStream ==> f.opcode == CLOSE
  }

  lemma {:induction false} LastReadStood(net: Net, w: Wire, p: Partial)
    requires Received(net, w, p).0.NoMessage?
    ensures Stood(net, Received(net, w, p).0.error, LastRead(net, w, p).1)
    ensures Parsed(LastRead(net, w, p).1, net.severed).Got? ==> Received(net, w, p).0.error != WrappedEnd
    decreases |w.incoming|
  {
    ReceivedUnfolds(net, w, p);
    ParsedShrinks(w.incoming, net.severed);
    hide Parsed, Received;
    var r := Parsed(w.incoming, net.severed);
    if r.Got? {
      var h := Handled(net, w.(incoming := r.rest), p, r.frame);
      HandledKeepsInput(net, w.(incoming := r.rest), p, r.frame);
      HandledErrors(net, w.(incoming := r.rest), p, r.frame);
      hide Handled;
      if h.0.More? {
        LastReadStood(net, h.1, h.0.partial);
      }
    }
  }

  lemma HandledErrors(net: Net, w: Wire, p: Partial, f: Frame)
    ensures var h := Handled(net, w, p, f);
            h.0.Done? && h.0.result.NoMessage? ==>
              h.0.result.error != WrappedEnd && (h.0.result.error == EndOfStream <==> f.opcode == CLOSE)
  {
    hide ClientFrame;
  }

  lemma {:induction false} ReadingStood(net: Net, w: Wire)
    ensures var ending, s := AllMessages(net, w).1, Standing(net, w).1;
            Stood(net, ending, s) && (Parsed(s, net.severed).Got? ==> ending != WrappedEnd)
    decreases |w.incoming|
  {
    hide Received, LastRead, Parsed, Stood;
    ReceivingShrinks(net, w, Idle);
    var r := Received(net, w, Idle);
    if r.0.Message? {
      ReadingStood(net, r.1);
    } else {
      LastReadStood(net, w, Idle);
    }
  }

  /** Nothing the server had begun to send is missing: no frame is cut off, and no message unfinished. */
  ghost predicate Complete(standing: (Partial, seq<Byte>))
  {
    standing.0.Idle? && !Torn(standing.1)
  }

  /**
   * What a nil error does not say: it comes with a complete reading exactly when no message was under way and
   * the stream did not end behind one byte of a frame, behind its header or behind its extended length.
   */
  lemma NilErrorIsComplete(net: Net, w: Wire, req: Request)
    requires !net.severed
    requires var (list, ending) := AllMessages(net, w); Demuxed(req, Sink([], [], None, false), list, ending).1 == None
    ensures var (p, s) := Standing(net, w);
            Complete((p, s)) <==> p.Idle? && !(|s| == 1 && !Reserved(s[0])) && !HeaderOnly(s)
  {
    hide Demuxed, AllMessages, Standing, Parsed, HeaderOnly, Torn, AllWellFormed, LastExit;
    var (list, ending) := AllMessages(net, w);
    var s := Standing(net, w).1;
    NoErrorMeansAll(req, list, ending);
    ReadingStood(net, w);
    WrappedEndMeans(s);
    if Parsed(s, false).Stopped? {
      TornAtTheEnd(s);
    } else {
      GotIsWhole(s);
    }
  }

  lemma GotIsWhole(s: seq<Byte>)
    requires Parsed(s, false).Got?
    ensures !Torn(s) && |s| >= 2
  {
  }

  /**
   * The inputs: after any well-formed messages with a status among them, a frame of which only the header
   * arrives is taken for the end, and its payload is lost without an error.
   */
  lemma CutFrameIsNoError(net: Net, w: Wire, script: seq<seq<Piece>>, tail: seq<Byte>, req: Request)
    requires AllSendable(script) && WritesSucceed(net, w.tries, AllPings(script)) && !net.severed
    requires w.incoming == Wired(script) + tail && HeaderOnly(tail)
    requires AllWellFormed(req, Packets(script)) && LastExit(req, Packets(script)).Some?
    ensures var (list, ending) := AllMessages(net, w);
            ending == WrappedEnd && Demuxed(req, Sink([], [], None, false), list, ending).1 == None
  {
    hide AllMessages, Demuxed, LastExit, AllWellFormed, Packets, Wired, EndsAt, HeaderOnly;
    HeaderOnlyEnds(net, tail);
    ScriptArrives(net, w, script, tail, WrappedEnd);
    NoErrorMeansAll(req, Packets(script), WrappedEnd);
  }

  /** Two bytes that announce five. */
  lemma AnnouncedPayload()
    ensures HeaderOnly([0x82, 0x05]) && Torn([0x82, 0x05])
  {
    HeaderOnlyIsTorn([0x82, 0x05]);
  }

  /** And a message of which only a fragment arrives is dropped without an error. */
  lemma UnfinishedEnds(net: Net, f: Frame, form: Form)
    requires f.opcode == BINARY && !f.fin && Allowed(form, |f.payload|) && !net.severed
    ensures EndsAt(net, Encoded(f, form), EndOfStream)
    ensures forall w: Wire :: w.incoming == Encoded(f, form) ==> Standing(net, w) == (Begun(BINARY, f.payload), [])
  {
    forall w: Wire | w.incoming == Encoded(f, form)
      ensures AllMessages(net, w) == ([], EndOfStream) && Standing(net, w) == (Begun(BINARY, f.payload), [])
    {
      FragmentAlone(net, w, f, form);
    }
  }

  lemma FragmentAlone(net: Net, w: Wire, f: Frame, form: Form)
    requires f.opcode == BINARY && !f.fin && Allowed(form, |f.payload|) && !net.severed
    requires w.incoming == Encoded(f, form)
    ensures AllMessages(net, w) == ([], EndOfStream) && Standing(net, w) == (Begun(BINARY, f.payload), [])
  {
    assert Encoded(f, form) + [] == Encoded(f, form);
    FrameIsRead(f, form, [], net.severed);
    var w', p := w.(incoming := []), Begun(BINARY, f.payload);
    WrappedEndMeans([]);
    assert Handled(net, w', Idle, f) == (More(p), w');
    hide Parsed, Encoded, Handled, Received;
    ReceivedUnfolds(net, w, Idle);
    ReceivedUnfolds(net, w', p);
    assert LastRead(net, w', p) == (p, []);
    assert LastRead(net, w, Idle) == LastRead(net, w', p);
    Next(net, w);
  }
}
