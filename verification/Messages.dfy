/** Messages: reassembled from their frames, with control frames handled on the way. */
module Messages {
  import opened Basics
  import opened WebSocket

  /**
   * What the connection meets: the mask drawn for each frame written, whether drawing it or writing the frame
   * fails, and whether the incoming bytes end in a transport error instead of a close.
   */
  datatype Net = Net(masks: nat -> Mask, failing: nat -> bool, severed: bool)

  /** Bytes still to be read, the frames written, and how many writes were tried. */
  datatype Wire = Wire(incoming: seq<Byte>, sent: seq<seq<Byte>>, tries: nat)

  function Written(net: Net, w: Wire, opcode: Nibble, payload: seq<Byte>): (r: (Wire, bool))
  {
    var w' := w.(tries := w.tries + 1);
    if net.failing(w.tries) || |payload| > MAX_SENT then (w', false)
    else (w'.(sent := w.sent + [ClientFrame(opcode, payload, net.masks(w.tries))]), true)
  }

  // --- reassembly --------------------------------------------------------------------------

  datatype MessageRead = Message(opcode: Nibble, payload: seq<Byte>) | NoMessage(error: ReadError)

  /** The message under way, if one has begun. */
  datatype Partial = Idle | Begun(opcode: Nibble, assembled: seq<Byte>)

  datatype Progress = More(partial: Partial) | Done(result: MessageRead)

  predicate IsData(opcode: Nibble)
  {
    opcode == TEXT || opcode == BINARY
  }

  function Extended(p: Partial, fin: bool): (r: Progress)
    requires p.Begun?
  {
    if fin then Done(Message(p.opcode, p.assembled)) else More(p)
  }

  /** What one frame does to the message under way and to the connection. */
  function Handled(net: Net, w: Wire, p: Partial, f: Frame): (r: (Progress, Wire))
  {
    if f.opcode == PING then
      var (w', ok) := Written(net, w, PONG, f.payload);
      (if ok then More(p) else Done(NoMessage(Broken)), w')
    else if f.opcode == PONG then (More(p), w)
    else if f.opcode == CLOSE then (Done(NoMessage(EndOfStream)), w)
    else if IsData(f.opcode) then
      (if p.Begun? then Done(NoMessage(Broken)) else Extended(Begun(f.opcode, f.payload), f.fin), w)
    else if f.opcode == CONTINUATION then
      (if p.Idle? then Done(NoMessage(Broken)) else Extended(p.(assembled := p.assembled + f.payload), f.fin), w)
    else (Done(NoMessage(Broken)), w)
  }

  /** The result of ReadMessage, and what it leaves of the connection. */
  function Received(net: Net, w: Wire, p: Partial): (r: (MessageRead, Wire))
    decreases |w.incoming|
  {
    match Parsed(w.incoming, net.severed)
    case Stopped(error, rest) => (NoMessage(error), w.(incoming := rest))
    case Got(f, rest) =>
      var (progress, w') := Handled(net, w.(incoming := rest), p, f);
      if progress.Done? then (progress.result, w')
      else Received(net, w', progress.partial)
  }

  lemma ReceivedUnfolds(net: Net, w: Wire, p: Partial)
    ensures var r := Parsed(w.incoming, net.severed);
            Received(net, w, p) == (
              if r.Stopped? then (NoMessage(r.error), w.(incoming := r.rest))
              else
                var h := Handled(net, w.(incoming := r.rest), p, r.frame);
                if h.0.Done? then (h.0.result, h.1) else Received(net, h.1, h.0.partial))
  {
    hide Parsed, Handled;
  }

  method ApplyMask(payload: seq<Byte>, mask: Mask) returns (r: seq<Byte>)
    ensures r == Masked(payload, mask)
  {
    var masked := new Byte[|payload|];
    for i := 0 to |payload|
      invariant forall k :: 0 <= k < i ==> masked[k] == Xor(payload[k], mask[k % 4])
    {
      masked[i] := Xor(payload[i], mask[i % 4]);
    }
    return masked[..];
  }

  // --- the connection, in place ----------------------------------------------------------------

  class Conn {
    const net: Net
    var incoming: seq<Byte>
    var sent: seq<seq<Byte>>
    var tries: nat

    constructor (net: Net, incoming: seq<Byte>)
      ensures View() == Wire(incoming, [], 0) && this.net == net
    {
      this.net, this.incoming, sent, tries := net, incoming, [], 0;
    }

    function View(): (r: Wire)
      reads this
    {
      Wire(incoming, sent, tries)
    }

    /** io.ReadFull: all `n` bytes, or the stream is used up and the error says how. */
    method ReadFull(n: nat) returns (bytes: Option<seq<Byte>>, error: ReadError)
      modifies `incoming
      ensures if n <= |old(incoming)| then bytes == Some(old(incoming)[..n]) && incoming == old(incoming)[n..]
              else bytes == None && incoming == [] && error == ShortRead(|old(incoming)|, net.severed)
    {
      error := ShortRead(|incoming|, net.severed);
      if n <= |incoming| {
        bytes := Some(incoming[..n]);
        incoming := incoming[n..];
      } else {
        bytes := None;
        incoming := [];
      }
    }

    /** The payload length that the second byte announces, unless the stream ends in the middle of it. */
    method ReadLength(code: Byte) returns (length: Option<nat>, error: ReadError)
      modifies `incoming
      ensures var width := ExtendedWidth(code);
              if width > |old(incoming)| then
                length == None && incoming == [] && error == ShortRead(|old(incoming)|, net.severed)
              else && incoming == old(incoming)[width..]
                   && length == Some(if width == 0 then code else Number(old(incoming)[..width]))
    {
      if code != 126 && code != 127 {
        assert incoming == incoming[0..];
        return Some(code), Broken;
      }
      var ext;
      ext, error := ReadFull(if code == 126 then 2 else 8);
      length := if ext.None? then None else Some(Number(ext.value));
    }

    method ReadFrame() returns (frame: Option<Frame>, error: ReadError)
      modifies `incoming
      ensures var r := Parsed(old(incoming), net.severed);
              && incoming == r.rest
              && (if r.Got? then frame == Some(r.frame) else frame == None && error == r.error)
    {
      hide Number, Final, Reserved, Opcode, MaskBit, LengthCode, ExtendedWidth, ShortRead;
      ghost var s := incoming;
      var head;
      head, error := ReadFull(2);
      if head.None? {
        return None, if net.severed then Broken else EndOfStream;
      }
      var first, second := head.value[0], head.value[1];
      if Reserved(first) || MaskBit(second) {
        return None, Broken;
      }
      ParsedByParts(s, net.severed);
      hide Parsed;
      var length;
      length, error := ReadLength(LengthCode(second));
      if length.None? {
        return None, error;
      }
      if length.value > MAX_FRAME {
        return None, Broken;
      }
      var payload;
      payload, error := ReadFull(length.value);
      if payload.None? {
        return None, error;
      }
      frame := Some(Frame(Final(first), Opcode(first), payload.value));
    }

    method WriteFrame(opcode: Nibble, payload: seq<Byte>) returns (ok: bool)
      modifies `sent, `tries
      ensures (View(), ok) == Written(net, old(View()), opcode, payload)
    {
      var mask, failing := net.masks(tries), net.failing(tries);
      tries := tries + 1;
      var header := [FirstByte(true, opcode)];
      if |payload| <= 125 {
        header := header + [0x80 + |payload|];
      } else if |payload| <= MAX_SENT {
        header := header + [0x80 + 126, |payload| / 256, |payload| % 256];
      } else {
        return false;
      }
      assert header == ClientHeader(opcode, |payload|);
      var masked := ApplyMask(payload, mask);
      if failing {
        return false;
      }
      sent := sent + [header + mask + masked];
      return true;
    }

    method ReadMessage() returns (result: MessageRead)
      modifies this
      ensures (result, View()) == Received(net, old(View()), Idle)
    {
      hide Received, Parsed, Written;
      var started, msgOp, assembled := false, CONTINUATION, [];
      while true
        invariant Received(net, old(View()), Idle)
               == Received(net, View(), if started then Begun(msgOp, assembled) else Idle)
        decreases |incoming|
      {
        ghost var p := if started then Begun(msgOp, assembled) else Idle;
        ReceivedUnfolds(net, View(), p);
        ParsedShrinks(incoming, net.severed);
        var frame, error := ReadFrame();
        if frame.None? {
          return NoMessage(error);
        }
        var f := frame.value;
        if f.opcode == PING {
          var ok := WriteFrame(PONG, f.payload);
          if !ok {
            return NoMessage(Broken);
          }
          continue;
        } else if f.opcode == PONG {
          continue;
        } else if f.opcode == CLOSE {
          return NoMessage(EndOfStream);
        } else if IsData(f.opcode) {
          if started {
            return NoMessage(Broken);
          }
          started, msgOp, assembled := true, f.opcode, f.payload;
        } else if f.opcode == CONTINUATION {
          if !started {
            return NoMessage(Broken);
          }
          assembled := assembled + f.payload;
        } else {
          return NoMessage(Broken);
        }
        if f.fin && started {
          return Message(msgOp, assembled);
        }
      }
    }
  }

  lemma ParsedShrinks(s: seq<Byte>, severed: bool)
    ensures Parsed(s, severed).Got? ==> |Parsed(s, severed).rest| < |s|
  {
  }

  // --- messages as a server fragments them (section 5.4) -----------------------------------------------

  /** A frame of a message, or a ping or a pong between two of them. */
  datatype Piece = Data(payload: seq<Byte>, form: Form) | Control(ping: bool, fin: bool, payload: seq<Byte>, form: Form)

  /** The message's first frame carries its opcode, the others continue it, and its last frame is final. */
  function FrameOf(piece: Piece, opcode: Nibble, begun: bool, last: bool): (r: Frame)
  {
    match piece
    case Control(ping, fin, payload, _) => Frame(fin, if ping then PING else PONG, payload)
    case Data(payload, _) => Frame(last, if begun then CONTINUATION else opcode, payload)
  }

  predicate AllAllowed(pieces: seq<Piece>)
  {
    forall i :: 0 <= i < |pieces| ==> Allowed(pieces[i].form, |pieces[i].payload|)
  }

  /** A message ends with one of its own frames, and every frame is one the reader takes. */
  predicate Sendable(pieces: seq<Piece>)
  {
    pieces != [] && pieces[|pieces| - 1].Data? && AllAllowed(pieces)
  }

  predicate PingsFit(pieces: seq<Piece>)
  {
    forall i :: 0 <= i < |pieces| ==> IsPing(pieces[i]) ==> |pieces[i].payload| <= MAX_SENT
  }

  function StreamOf(pieces: seq<Piece>, opcode: Nibble, begun: bool): (out: seq<Byte>)
    requires AllAllowed(pieces)
  {
    if pieces == [] then []
    else
      Encoded(FrameOf(pieces[0], opcode, begun, |pieces| == 1), pieces[0].form)
      + StreamOf(pieces[1..], opcode, begun || pieces[0].Data?)
  }

  function PayloadOf(pieces: seq<Piece>): (out: seq<Byte>)
  {
    if pieces == [] then []
    else if pieces[0].Data? then pieces[0].payload + PayloadOf(pieces[1..])
    else PayloadOf(pieces[1..])
  }

  predicate IsPing(piece: Piece)
  {
    piece.Control? && piece.ping
  }

  function PingCount(pieces: seq<Piece>): (n: nat)
  {
    if pieces == [] then 0 else (if IsPing(pieces[0]) then 1 else 0) + PingCount(pieces[1..])
  }

  /** One pong for each ping, with its payload, in their order; the masks are those drawn from the `from`-th on. */
  function Pongs(net: Net, from: nat, pieces: seq<Piece>): (out: seq<seq<Byte>>)
    requires PingsFit(pieces)
    decreases |pieces|
  {
    if pieces == [] then []
    else
      assert PingsFit(pieces[1..]);
      if IsPing(pieces[0]) then
        [ClientFrame(PONG, pieces[0].payload, net.masks(from))] + Pongs(net, from + 1, pieces[1..])
      else Pongs(net, from, pieces[1..])
  }

  predicate WritesSucceed(net: Net, from: nat, n: nat)
  {
    forall i :: from <= i < from + n ==> !net.failing(i)
  }

  function Joined(p: Partial, opcode: Nibble, payload: seq<Byte>): (r: Partial)
  {
    if p.Begun? then p.(assembled := p.assembled + payload) else Begun(opcode, payload)
  }

  /** What one piece does. */
  lemma PieceHandled(net: Net, w: Wire, p: Partial, piece: Piece, opcode: Nibble, last: bool)
    requires IsData(opcode) && (p.Begun? ==> p.opcode == opcode)
    requires IsPing(piece) ==> |piece.payload| <= MAX_SENT && !net.failing(w.tries)
    ensures Handled(net, w, p, FrameOf(piece, opcode, p.Begun?, last)) == (
              if piece.Data? then
                (if last then Done(Message(opcode, Joined(p, opcode, piece.payload).assembled))
                 else More(Joined(p, opcode, piece.payload)), w)
              else if piece.ping then
                (More(p), Wire(w.incoming, w.sent + [ClientFrame(PONG, piece.payload, net.masks(w.tries))], w.tries + 1))
              else (More(p), w))
  {
    hide ClientFrame;
  }

  function Assembled(p: Partial): (out: seq<Byte>)
  {
    if p.Begun? then p.assembled else []
  }

  /** The first piece of a stream is read as the frame it is. */
  lemma PieceArrives(net: Net, w: Wire, p: Partial, pieces: seq<Piece>, opcode: Nibble, rest: seq<Byte>)
    requires IsData(opcode) && pieces != [] && AllAllowed(pieces)
    requires w.incoming == StreamOf(pieces, opcode, p.Begun?) + rest
    ensures var f := FrameOf(pieces[0], opcode, p.Begun?, |pieces| == 1);
            var tail := StreamOf(pieces[1..], opcode, p.Begun? || pieces[0].Data?) + rest;
            var h := Handled(net, w.(incoming := tail), p, f);
            Received(net, w, p) == (if h.0.Done? then (h.0.result, h.1) else Received(net, h.1, h.0.partial))
  {
    hide Received, Handled, Parsed, Encoded, Allowed, FrameOf;
    var piece := pieces[0];
    var f := FrameOf(piece, opcode, p.Begun?, |pieces| == 1);
    var tail := StreamOf(pieces[1..], opcode, p.Begun? || piece.Data?) + rest;
    FrameFields(piece, opcode, p.Begun?, |pieces| == 1);
    assert w.incoming == Encoded(f, piece.form) + tail;
    FrameIsRead(f, piece.form, tail, net.severed);
    ReceivedUnfolds(net, w, p);
  }

  /** What a stream of pieces comes to, when it continues `p`. */
  function Outcome(net: Net, w: Wire, p: Partial, pieces: seq<Piece>, opcode: Nibble, rest: seq<Byte>): (r: (MessageRead, Wire))
    requires PingsFit(pieces)
  {
    (Message(opcode, Assembled(p) + PayloadOf(pieces)),
     Wire(rest, w.sent + Pongs(net, w.tries, pieces), w.tries + PingCount(pieces)))
  }

  /** The connection after one piece, and the message under way. */
  function AfterPiece(net: Net, w: Wire, piece: Piece, incoming: seq<Byte>): (r: Wire)
    requires IsPing(piece) ==> |piece.payload| <= MAX_SENT
  {
    if IsPing(piece) then
      Wire(incoming, w.sent + [ClientFrame(PONG, piece.payload, net.masks(w.tries))], w.tries + 1)
    else w.(incoming := incoming)
  }

  function Under(p: Partial, opcode: Nibble, piece: Piece): (r: Partial)
  {
    if piece.Data? then Joined(p, opcode, piece.payload) else p
  }

  predicate Ready(net: Net, w: Wire, p: Partial, pieces: seq<Piece>, opcode: Nibble, rest: seq<Byte>)
  {
    && IsData(opcode) && (p.Begun? ==> p.opcode == opcode)
    && Sendable(pieces) && PingsFit(pieces) && WritesSucceed(net, w.tries, PingCount(pieces))
    && w.incoming == StreamOf(pieces, opcode, p.Begun?) + rest
  }

  lemma {:induction false} PiecesArrive(net: Net, w: Wire, p: Partial, pieces: seq<Piece>, opcode: Nibble, rest: seq<Byte>)
    requires Ready(net, w, p, pieces, opcode, rest)
    ensures Received(net, w, p) == Outcome(net, w, p, pieces, opcode, rest)
    decreases |pieces|
  {
    FirstPieceArrives(net, w, p, pieces, opcode, rest);
    if |pieces| == 1 {
      LastPiece(net, w, p, pieces, opcode, rest);
    } else {
      var tail := StreamOf(pieces[1..], opcode, p.Begun? || pieces[0].Data?) + rest;
      OthersAreReady(net, w, p, pieces, opcode, rest);
      hide Ready, Received, Outcome, AfterPiece, Under, StreamOf;
      PiecesArrive(net, AfterPiece(net, w, pieces[0], tail), Under(p, opcode, pieces[0]), pieces[1..], opcode, rest);
    }
  }

  lemma FirstPieceArrives(net: Net, w: Wire, p: Partial, pieces: seq<Piece>, opcode: Nibble, rest: seq<Byte>)
    requires Ready(net, w, p, pieces, opcode, rest)
    ensures var tail := StreamOf(pieces[1..], opcode, p.Begun? || pieces[0].Data?) + rest;
            Received(net, w, p) == (
              if |pieces| == 1 then
                (Message(opcode, Joined(p, opcode, pieces[0].payload).assembled), w.(incoming := tail))
              else Received(net, AfterPiece(net, w, pieces[0], tail), Under(p, opcode, pieces[0])))
  {
    hide Received, Handled, StreamOf, ClientFrame, FrameOf, Joined;
    var tail := StreamOf(pieces[1..], opcode, p.Begun? || pieces[0].Data?) + rest;
    PieceArrives(net, w, p, pieces, opcode, rest);
    PieceHandled(net, w.(incoming := tail), p, pieces[0], opcode, |pieces| == 1);
  }

  lemma LastPiece(net: Net, w: Wire, p: Partial, pieces: seq<Piece>, opcode: Nibble, rest: seq<Byte>)
    requires |pieces| == 1 && Sendable(pieces) && PingsFit(pieces)
    ensures (Message(opcode, Joined(p, opcode, pieces[0].payload).assembled),
             w.(incoming := StreamOf(pieces[1..], opcode, true) + rest))
         == Outcome(net, w, p, pieces, opcode, rest)
  {
    assert pieces[1..] == [] && StreamOf([], opcode, true) + rest == rest;
    assert PayloadOf(pieces) == pieces[0].payload + PayloadOf([]) == pieces[0].payload;
    assert PingCount(pieces) == PingCount([]) == 0;
    assert Pongs(net, w.tries, pieces) == Pongs(net, w.tries, []) == [];
    assert w.sent + [] == w.sent;
    assert [] + pieces[0].payload == pieces[0].payload;
  }

  /** After its first piece, the rest of a stream is ready to be read, and comes to the same. */
  lemma OthersAreReady(net: Net, w: Wire, p: Partial, pieces: seq<Piece>, opcode: Nibble, rest: seq<Byte>)
    requires Ready(net, w, p, pieces, opcode, rest) && |pieces| > 1
    ensures var tail := StreamOf(pieces[1..], opcode, p.Begun? || pieces[0].Data?) + rest;
            var w', p' := AfterPiece(net, w, pieces[0], tail), Under(p, opcode, pieces[0]);
            && Ready(net, w', p', pieces[1..], opcode, rest)
            && Outcome(net, w', p', pieces[1..], opcode, rest) == Outcome(net, w, p, pieces, opcode, rest)
  {
    var tail := StreamOf(pieces[1..], opcode, p.Begun? || pieces[0].Data?) + rest;
    StillReady(net, w, p, pieces, opcode, rest);
    SamePayload(p, opcode, pieces);
    SamePongs(net, w, pieces, tail);
    hide AfterPiece, Under, Ready, StreamOf, PayloadOf, PingCount, Pongs, Assembled, AllAllowed, PingsFit, IsData, Sendable, Outcome;
    SameOutcome(net, w, p, pieces, AfterPiece(net, w, pieces[0], tail), Under(p, opcode, pieces[0]), pieces[1..], opcode, rest);
  }

  lemma SameOutcome(net: Net, w: Wire, p: Partial, pieces: seq<Piece>, w': Wire, p': Partial, others: seq<Piece>,
                    opcode: Nibble, rest: seq<Byte>)
    requires PingsFit(pieces) && PingsFit(others)
    requires Assembled(p') + PayloadOf(others) == Assembled(p) + PayloadOf(pieces)
    requires w'.sent + Pongs(net, w'.tries, others) == w.sent + Pongs(net, w.tries, pieces)
    requires w'.tries + PingCount(others) == w.tries + PingCount(pieces)
    ensures Outcome(net, w', p', others, opcode, rest) == Outcome(net, w, p, pieces, opcode, rest)
  {
    hide PayloadOf, PingCount, Pongs, Assembled, PingsFit;
  }

  lemma StillReady(net: Net, w: Wire, p: Partial, pieces: seq<Piece>, opcode: Nibble, rest: seq<Byte>)
    requires Ready(net, w, p, pieces, opcode, rest) && |pieces| > 1
    ensures var tail := StreamOf(pieces[1..], opcode, p.Begun? || pieces[0].Data?) + rest;
            Ready(net, AfterPiece(net, w, pieces[0], tail), Under(p, opcode, pieces[0]), pieces[1..], opcode, rest)
  {
    var tail := StreamOf(pieces[1..], opcode, p.Begun? || pieces[0].Data?) + rest;
    OtherPieces(net, w.tries, pieces);
    Unchanged(net, w, p, pieces[0], opcode, tail);
    hide AfterPiece, Under, PingsFit, StreamOf, PayloadOf, PingCount, Sendable, WritesSucceed, AllAllowed, IsData;
  }

  lemma Unchanged(net: Net, w: Wire, p: Partial, piece: Piece, opcode: Nibble, incoming: seq<Byte>)
    requires IsPing(piece) ==> |piece.payload| <= MAX_SENT
    ensures var w', p' := AfterPiece(net, w, piece, incoming), Under(p, opcode, piece);
            && w'.incoming == incoming && w'.tries == (if IsPing(piece) then w.tries + 1 else w.tries)
            && (p'.Begun? <==> p.Begun? || piece.Data?)
            && (p'.Begun? && (p.Begun? ==> p.opcode == opcode) ==> p'.opcode == opcode)
  {
    hide ClientFrame;
  }

  lemma SamePayload(p: Partial, opcode: Nibble, pieces: seq<Piece>)
    requires pieces != []
    ensures Assembled(Under(p, opcode, pieces[0])) + PayloadOf(pieces[1..]) == Assembled(p) + PayloadOf(pieces)
  {
    var others := PayloadOf(pieces[1..]);
    if pieces[0].Data? {
      Regrouped(Assembled(p), pieces[0].payload, others);
      assert [] + pieces[0].payload == pieces[0].payload;
    }
  }

  lemma SamePongs(net: Net, w: Wire, pieces: seq<Piece>, incoming: seq<Byte>)
    requires pieces != [] && PingsFit(pieces)
    ensures PingsFit(pieces[1..])
    ensures var w' := AfterPiece(net, w, pieces[0], incoming);
            && w'.sent + Pongs(net, w'.tries, pieces[1..]) == w.sent + Pongs(net, w.tries, pieces)
            && w'.tries + PingCount(pieces[1..]) == w.tries + PingCount(pieces)
  {
    hide ClientFrame;
    if IsPing(pieces[0]) {
      var pong := ClientFrame(PONG, pieces[0].payload, net.masks(w.tries));
      Regrouped(w.sent, [pong], Pongs(net, w.tries + 1, pieces[1..]));
    }
  }

  lemma Regrouped<T>(a: seq<T>, b: seq<T>, c: seq<T>)
    ensures a + (b + c) == a + b + c
  {
  }

  lemma OtherPieces(net: Net, from: nat, pieces: seq<Piece>)
    requires Sendable(pieces) && PingsFit(pieces) && WritesSucceed(net, from, PingCount(pieces)) && |pieces| > 1
    ensures var others := pieces[1..];
            && Sendable(others) && PingsFit(others)
            && WritesSucceed(net, if IsPing(pieces[0]) then from + 1 else from, PingCount(others))
  {
    assert pieces[1..][|pieces| - 2] == pieces[|pieces| - 1];
  }

  lemma FrameFields(piece: Piece, opcode: Nibble, begun: bool, last: bool)
    ensures FrameOf(piece, opcode, begun, last).payload == piece.payload
  {
  }

  /**
   * However a server splits a message into frames, whatever pings and pongs it puts between them and however
   * it writes their lengths: the reader returns the message's own opcode and its whole payload, takes no byte
   * beyond it, and answers every ping with one pong of the same payload, in order.
   */
  lemma MessageArrives(net: Net, w: Wire, pieces: seq<Piece>, opcode: Nibble, rest: seq<Byte>)
    requires IsData(opcode) && Sendable(pieces) && PingsFit(pieces)
    requires WritesSucceed(net, w.tries, PingCount(pieces))
    requires w.incoming == StreamOf(pieces, opcode, false) + rest
    ensures Received(net, w, Idle) == (
              Message(opcode, PayloadOf(pieces)),
              Wire(rest, w.sent + Pongs(net, w.tries, pieces), w.tries + PingCount(pieces)))
  {
    hide Received, Pongs, StreamOf, PayloadOf, PingCount;
    assert Ready(net, w, Idle, pieces, opcode, rest);
    PiecesArrive(net, w, Idle, pieces, opcode, rest);
    assert Assembled(Idle) + PayloadOf(pieces) == PayloadOf(pieces);
  }

  // --- and a message is read off nothing else ------------------------------------------------------------

  function PieceOf(f: Frame, form: Form): (r: Piece)
  {
    if f.opcode == PING || f.opcode == PONG then Control(f.opcode == PING, f.fin, f.payload, form)
    else Data(f.payload, form)
  }

  /** A frame that did not end the reading is a piece of the message that is returned in the end. */
  lemma PieceWasHandled(net: Net, w: Wire, p: Partial, f: Frame, form: Form, opcode: Nibble)
    requires p.Begun? ==> IsData(p.opcode) && p.opcode == opcode
    requires Handled(net, w, p, f).0.More?
    requires var q := Handled(net, w, p, f).0.partial; q.Begun? ==> q.opcode == opcode
    ensures var piece, h := PieceOf(f, form), Handled(net, w, p, f);
            && FrameOf(piece, opcode, p.Begun?, false) == f
            && piece.payload == f.payload && piece.form == form
            && (IsPing(piece) ==> |piece.payload| <= MAX_SENT && !net.failing(w.tries))
            && h.1 == AfterPiece(net, w, piece, w.incoming) && h.0.partial == Under(p, opcode, piece)
            && (h.0.partial.Begun? ==> IsData(h.0.partial.opcode))
            && (h.0.partial.Begun? <==> p.Begun? || piece.Data?)
  {
    hide ClientFrame;
  }

  lemma LastWasHandled(net: Net, w: Wire, p: Partial, f: Frame, form: Form)
    requires p.Begun? ==> IsData(p.opcode)
    requires Handled(net, w, p, f).0.Done? && Handled(net, w, p, f).0.result.Message?
    ensures var piece, opcode := PieceOf(f, form), Handled(net, w, p, f).0.result.opcode;
            && piece == Data(f.payload, form) && FrameOf(piece, opcode, p.Begun?, true) == f
            && IsData(opcode) && (p.Begun? ==> p.opcode == opcode)
  {
    hide ClientFrame;
  }

  lemma PrefixedIsSendable(piece: Piece, others: seq<Piece>)
    requires Allowed(piece.form, |piece.payload|) && Sendable(others) && PingsFit(others)
    requires IsPing(piece) ==> |piece.payload| <= MAX_SENT
    ensures Sendable([piece] + others) && PingsFit([piece] + others)
  {
    hide Allowed;
    var pieces := [piece] + others;
    forall i | 0 <= i < |pieces|
      ensures Allowed(pieces[i].form, |pieces[i].payload|)
      ensures IsPing(pieces[i]) ==> |pieces[i].payload| <= MAX_SENT
    {
      assert i > 0 ==> pieces[i] == others[i - 1];
    }
  }

  lemma PrefixedStream(piece: Piece, others: seq<Piece>, opcode: Nibble, begun: bool, rest: seq<Byte>)
    requires AllAllowed([piece] + others) && AllAllowed(others) && others != []
    requires Allowed(piece.form, |FrameOf(piece, opcode, begun, false).payload|)
    ensures StreamOf([piece] + others, opcode, begun) + rest
         == Encoded(FrameOf(piece, opcode, begun, false), piece.form)
            + (StreamOf(others, opcode, begun || piece.Data?) + rest)
  {
    hide Encoded, Allowed, FrameOf;
    assert ([piece] + others)[1..] == others;
  }

  lemma Prefixed(net: Net, w: Wire, p: Partial, piece: Piece, others: seq<Piece>, opcode: Nibble, rest: seq<Byte>)
    requires Allowed(piece.form, |piece.payload|) && others != [] && AllAllowed(others)
    requires IsPing(piece) ==> |piece.payload| <= MAX_SENT && !net.failing(w.tries)
    requires p.Begun? ==> p.opcode == opcode
    requires Ready(net, AfterPiece(net, w, piece, StreamOf(others, opcode, p.Begun? || piece.Data?) + rest),
                   Under(p, opcode, piece), others, opcode, rest)
    requires w.incoming == Encoded(FrameOf(piece, opcode, p.Begun?, false), piece.form)
                           + (StreamOf(others, opcode, p.Begun? || piece.Data?) + rest)
    ensures Ready(net, w, p, [piece] + others, opcode, rest)
  {
    var pieces := [piece] + others;
    assert Sendable(others) && PingsFit(others) && IsData(opcode);
    assert WritesSucceed(net, if IsPing(piece) then w.tries + 1 else w.tries, PingCount(others));
    hide Encoded, ClientFrame, Allowed, FrameOf, IsData, Sendable, PingsFit, WritesSucceed, StreamOf, PingCount;
    hide AfterPiece, Under;
    PrefixedIsSendable(piece, others);
    FrameFields(piece, opcode, p.Begun?, false);
    SendableIsAllowed(pieces);
    PrefixedStream(piece, others, opcode, p.Begun?, rest);
    PrefixedWrites(net, w.tries, piece, others);
  }

  lemma SendableIsAllowed(pieces: seq<Piece>)
    requires Sendable(pieces)
    ensures AllAllowed(pieces)
  {
  }

  lemma PrefixedWrites(net: Net, from: nat, piece: Piece, others: seq<Piece>)
    requires IsPing(piece) ==> !net.failing(from)
    requires WritesSucceed(net, if IsPing(piece) then from + 1 else from, PingCount(others))
    ensures WritesSucceed(net, from, PingCount([piece] + others))
  {
    assert ([piece] + others)[1..] == others;
  }

  /**
   * Conversely, whenever the reader returns a message, the bytes it took are such a stream for that message's
   * opcode, every ping in it was answered, and so PiecesArrive says what payload and which pongs there were.
   */
  lemma {:induction false} MessageWasSent(net: Net, w: Wire, p: Partial) returns (pieces: seq<Piece>, rest: seq<Byte>)
    requires p.Begun? ==> IsData(p.opcode)
    requires Received(net, w, p).0.Message?
    ensures Ready(net, w, p, pieces, Received(net, w, p).0.opcode, rest)
    ensures Received(net, w, p) == Outcome(net, w, p, pieces, Received(net, w, p).0.opcode, rest)
    decreases |w.incoming|
  {
    hide Received, Handled, Parsed, Encoded, ClientFrame, Ready, Outcome, FrameOf, PieceOf, AfterPiece, Under, StreamOf;
    ReceivedUnfolds(net, w, p);
    ParsedShrinks(w.incoming, net.severed);
    var r := Parsed(w.incoming, net.severed);
    var form := FrameWasSent(w.incoming, net.severed);
    var h := Handled(net, w.(incoming := r.rest), p, r.frame);
    var piece, opcode := PieceOf(r.frame, form), Received(net, w, p).0.opcode;
    if h.0.Done? {
      LastWasHandled(net, w.(incoming := r.rest), p, r.frame, form);
      pieces, rest := [piece], r.rest;
      OnlyPiece(net, w, p, piece, opcode, rest);
    } else {
      HandledKeepsInput(net, w.(incoming := r.rest), p, r.frame);
      pieces, rest := MessageWasSent(net, h.1, h.0.partial);
      ReadyHasOpcode(net, h.1, h.0.partial, pieces, opcode, rest);
      if p.Begun? {
        HandledKeepsOpcode(net, w.(incoming := r.rest), p, r.frame);
      }
      PieceWasHandled(net, w.(incoming := r.rest), p, r.frame, form, opcode);
      AfterPieceInput(net, w, r.rest, piece);
      Prefixed(net, w, p, piece, pieces, opcode, rest);
      pieces := [piece] + pieces;
    }
    PiecesArrive(net, w, p, pieces, opcode, rest);
  }

  lemma OnlyPiece(net: Net, w: Wire, p: Partial, piece: Piece, opcode: Nibble, rest: seq<Byte>)
    requires piece.Data? && Allowed(piece.form, |piece.payload|) && IsData(opcode) && (p.Begun? ==> p.opcode == opcode)
    requires w.incoming == Encoded(FrameOf(piece, opcode, p.Begun?, true), piece.form) + rest
    ensures Ready(net, w, p, [piece], opcode, rest)
  {
    hide Encoded, Allowed;
    assert [piece][1..] == [] && PingCount([piece]) == PingCount([]) == 0;
    assert StreamOf([piece], opcode, p.Begun?) == Encoded(FrameOf(piece, opcode, p.Begun?, true), piece.form) + [];
  }

  lemma HandledKeepsInput(net: Net, w: Wire, p: Partial, f: Frame)
    ensures Handled(net, w, p, f).1.incoming == w.incoming
    ensures (p.Begun? ==> IsData(p.opcode)) && Handled(net, w, p, f).0.More?
            ==> var q := Handled(net, w, p, f).0.partial; q.Begun? ==> IsData(q.opcode)
  {
    hide ClientFrame;
  }

  lemma HandledKeepsOpcode(net: Net, w: Wire, p: Partial, f: Frame)
    requires p.Begun? && Handled(net, w, p, f).0.More?
    ensures var q := Handled(net, w, p, f).0.partial; q.Begun? && q.opcode == p.opcode
  {
    hide ClientFrame;
  }

  lemma ReadyHasOpcode(net: Net, w: Wire, p: Partial, pieces: seq<Piece>, opcode: Nibble, rest: seq<Byte>)
    requires Ready(net, w, p, pieces, opcode, rest)
    ensures pieces != [] && (p.Begun? ==> p.opcode == opcode)
    ensures AllAllowed(pieces)
    ensures w.incoming == StreamOf(pieces, opcode, p.Begun?) + rest
  {
  }

  lemma AfterPieceInput(net: Net, w: Wire, incoming: seq<Byte>, piece: Piece)
    requires IsPing(piece) ==> |piece.payload| <= MAX_SENT
    ensures AfterPiece(net, w.(incoming := incoming), piece, incoming) == AfterPiece(net, w, piece, incoming)
  {
    hide ClientFrame;
  }
}
