/**
 * The remote-command client's side of RFC 6455: reading frames and messages off a byte stream, answering
 * pings, and writing masked frames.
 */
module WebSocket {
  import opened Basics

  type Byte = n: nat | n < 256

  /** The four low bits of a frame's first byte. */
  type Nibble = n: nat | n < 16

  const CONTINUATION: Nibble := 0x0
  const TEXT: Nibble := 0x1
  const BINARY: Nibble := 0x2
  const CLOSE: Nibble := 0x8
  const PING: Nibble := 0x9
  const PONG: Nibble := 0xA

  const MAX_FRAME: nat := 0x80_0000
  const MAX_SENT: nat := 0xFFFF

  // --- numbers ------------------------------------------------------------------------------

  function Pow256(width: nat): (p: nat)
    ensures p >= 1
  {
    if width == 0 then 1 else 256 * Pow256(width - 1)
  }

  /** The value of a big-endian number. */
  function Number(bytes: seq<Byte>): (n: nat)
  {
    if bytes == [] then 0 else 256 * Number(bytes[..|bytes| - 1]) + bytes[|bytes| - 1]
  }

  function BigEndian(n: nat, width: nat): (bytes: seq<Byte>)
    requires n < Pow256(width)
    ensures |bytes| == width
  {
    if width == 0 then [] else BigEndian(n / 256, width - 1) + [n % 256]
  }

  lemma {:induction false} NumberOfBigEndian(n: nat, width: nat)
    requires n < Pow256(width)
    ensures Number(BigEndian(n, width)) == n
  {
    if width > 0 {
      NumberOfBigEndian(n / 256, width - 1);
      assert BigEndian(n, width)[..width - 1] == BigEndian(n / 256, width - 1);
    }
  }

  lemma BigEndianSnoc(m: nat, d: nat, width: nat)
    requires m < Pow256(width) && d < 256
    ensures 256 * m + d < Pow256(width + 1) && BigEndian(256 * m + d, width + 1) == BigEndian(m, width) + [d]
  {
    LastDigit(m, d);
  }

  lemma {:induction false} BigEndianOfNumber(bytes: seq<Byte>)
    ensures Number(bytes) < Pow256(|bytes|) && BigEndian(Number(bytes), |bytes|) == bytes
  {
    hide BigEndian, Pow256;
    if bytes == [] {
      NothingIsZero();
    } else {
      var init, last := bytes[..|bytes| - 1], bytes[|bytes| - 1];
      BigEndianOfNumber(init);
      BigEndianSnoc(Number(init), last, |init|);
      assert bytes == init + [last];
    }
  }

  lemma NothingIsZero()
    ensures Number([]) < Pow256(0) && BigEndian(0, 0) == []
  {
  }

  lemma LastDigit(m: nat, d: nat)
    requires d < 256
    ensures (256 * m + d) / 256 == m && (256 * m + d) % 256 == d
  {
  }

  // --- the fields of a frame's first two bytes --------------------------------------------------------

  predicate Final(b: Byte)
  {
    b / 0x80 == 1
  }

  predicate Reserved(b: Byte)
  {
    b / 0x10 % 8 != 0
  }

  function Opcode(b: Byte): (r: Nibble)
  {
    b % 0x10
  }

  predicate MaskBit(b: Byte)
  {
    b / 0x80 == 1
  }

  function LengthCode(b: Byte): (r: Byte)
  {
    b % 0x80
  }

  function FirstByte(fin: bool, opcode: Nibble): (r: Byte)
  {
    if fin then 0x80 + opcode else opcode
  }

  lemma FirstByteReads(fin: bool, opcode: Nibble)
    ensures var b := FirstByte(fin, opcode); !Reserved(b) && Opcode(b) == opcode && (Final(b) <==> fin)
  {
  }

  lemma FirstByteBack(b: Byte)
    requires !Reserved(b)
    ensures b == FirstByte(Final(b), Opcode(b))
  {
  }

  // --- frames as RFC 6455 lays them out (section 5.2) -------------------------------------------------

  datatype Frame = Frame(fin: bool, opcode: Nibble, payload: seq<Byte>)

  /** The three ways to write a payload's length. */
  datatype Form = Short | Medium | Long

  predicate Allowed(form: Form, n: nat)
  {
    && n <= 8 * 1024 * 1024
    && (form == Short ==> n <= 125)
    && (form == Medium ==> n <= 0xFFFF)
  }

  lemma Widths(form: Form, n: nat)
    requires Allowed(form, n)
    ensures form == Medium ==> n < Pow256(2)
    ensures form == Long ==> n < Pow256(8)
  {
    assert Pow256(1) == 256 && Pow256(2) == 0x1_0000 && Pow256(3) == 0x100_0000;
    assert Pow256(5) >= Pow256(3) && Pow256(7) >= Pow256(5);
  }

  function LengthBytes(form: Form, n: nat): (out: seq<Byte>)
    requires Allowed(form, n)
  {
    Widths(form, n);
    match form
    case Short => [n]
    case Medium => [126] + BigEndian(n, 2)
    case Long => [127] + BigEndian(n, 8)
  }

  /** An unmasked frame, as a server sends it. */
  function Encoded(f: Frame, form: Form): (out: seq<Byte>)
    requires Allowed(form, |f.payload|)
  {
    [FirstByte(f.fin, f.opcode)] + LengthBytes(form, |f.payload|) + f.payload
  }

  // --- reading a frame ------------------------------------------------------------------------------------

  /**
   * io.EOF itself; an error with the code MAS-4213 that wraps io.EOF, and so counts as one to errors.Is; or
   * any other error with that code.
   */
  datatype ReadError = EndOfStream | WrappedEnd | Broken

  predicate IsEnd(e: ReadError)
  {
    e != Broken
  }

  datatype FrameRead = Got(frame: Frame, rest: seq<Byte>) | Stopped(error: ReadError, rest: seq<Byte>)

  function ExtendedWidth(code: Byte): (n: nat)
  {
    if code == 126 then 2 else if code == 127 then 8 else 0
  }

  /** io.ReadFull gives a plain io.EOF exactly when there was not a single byte to read. */
  function ShortRead(there: nat, severed: bool): (e: ReadError)
  {
    if there == 0 && !severed then WrappedEnd else Broken
  }

  /** What readFrame makes of the bytes that are still to come; `severed`: they end in a transport error. */
  function Parsed(s: seq<Byte>, severed: bool): (r: FrameRead)
    ensures r.Got? ==> |r.rest| + 2 <= |s|
  {
    if |s| < 2 then Stopped(if severed then Broken else EndOfStream, [])
    else if Reserved(s[0]) then Stopped(Broken, s[2..])
    else if MaskBit(s[1]) then Stopped(Broken, s[2..])
    else
      var code := LengthCode(s[1]);
      var start := 2 + ExtendedWidth(code);
      if |s| < start then Stopped(ShortRead(|s| - 2, severed), [])
      else
        var n := if start == 2 then code else Number(s[2..start]);
        if n > MAX_FRAME then Stopped(Broken, s[start..])
        else if |s| < start + n then Stopped(ShortRead(|s| - start, severed), [])
        else Got(Frame(Final(s[0]), Opcode(s[0]), s[start..start + n]), s[start + n..])
  }

  /** The same, part by part as they are read off the stream. */
  lemma ParsedByParts(s: seq<Byte>, severed: bool)
    requires |s| >= 2 && !Reserved(s[0]) && !MaskBit(s[1])
    ensures var width := ExtendedWidth(LengthCode(s[1]));
            var body := s[2..];
            Parsed(s, severed) == (
              if |body| < width then Stopped(ShortRead(|body|, severed), [])
              else
                var n := if width == 0 then LengthCode(s[1]) else Number(body[..width]);
                var rest := body[width..];
                if n > MAX_FRAME then Stopped(Broken, rest)
                else if |rest| < n then Stopped(ShortRead(|rest|, severed), [])
                else Got(Frame(Final(s[0]), Opcode(s[0]), rest[..n]), rest[n..]))
  {
    hide Number, Reserved, MaskBit, Final, Opcode, LengthCode, ExtendedWidth, ShortRead;
    var start := 2 + ExtendedWidth(LengthCode(s[1]));
    if |s| >= start {
      assert s[2..][..start - 2] == s[2..start] && s[2..][start - 2..] == s[start..];
      var n := if start == 2 then LengthCode(s[1]) else Number(s[2..start]);
      if |s| >= start + n {
        assert s[start..][..n] == s[start..start + n] && s[start..][n..] == s[start + n..];
      }
    }
  }

  lemma ShortCode(n: nat)
    requires n <= 125
    ensures !MaskBit(n) && LengthCode(n) == n && ExtendedWidth(n) == 0
  {
  }

  lemma CodeBack(b: Byte)
    requires !MaskBit(b)
    ensures LengthCode(b) == b && (ExtendedWidth(b) == 0 ==> b <= 125)
  {
  }

  lemma LengthIsRead(form: Form, n: nat)
    requires Allowed(form, n)
    ensures var bytes := LengthBytes(form, n);
            && |bytes| == 1 + ExtendedWidth(bytes[0])
            && !MaskBit(bytes[0]) && LengthCode(bytes[0]) == bytes[0]
            && (if |bytes| == 1 then bytes[0] else Number(bytes[1..])) == n
  {
    hide Number, BigEndian, Pow256;
    Widths(form, n);
    match form {
      case Short => ShortCode(n);
      case Medium => NumberOfBigEndian(n, 2);
      case Long => NumberOfBigEndian(n, 8);
    }
  }

  lemma Slices(first: Byte, length: seq<Byte>, payload: seq<Byte>, rest: seq<Byte>)
    requires length != []
    ensures var s, start := [first] + length + payload + rest, 1 + |length|;
            && s[0] == first && s[1] == length[0] && s[2..start] == length[1..]
            && s[start..start + |payload|] == payload && s[start + |payload|..] == rest
  {
  }

  /** Whichever length form the server picks, the frame it sent is the frame that is read. */
  lemma FrameIsRead(f: Frame, form: Form, rest: seq<Byte>, severed: bool)
    requires Allowed(form, |f.payload|)
    ensures Parsed(Encoded(f, form) + rest, severed) == Got(f, rest)
  {
    hide LengthBytes, Number, ExtendedWidth, FirstByte, Reserved, Final, Opcode, MaskBit, LengthCode;
    FirstByteReads(f.fin, f.opcode);
    LengthIsRead(form, |f.payload|);
    Slices(FirstByte(f.fin, f.opcode), LengthBytes(form, |f.payload|), f.payload, rest);
  }

  function FormOf(code: Byte): (r: Form)
  {
    if code == 126 then Medium else if code == 127 then Long else Short
  }

  lemma LengthBack(s: seq<Byte>)
    requires |s| >= 1 && !MaskBit(s[0]) && |s| == 1 + ExtendedWidth(s[0])
    requires (if |s| == 1 then s[0] else Number(s[1..])) <= MAX_FRAME
    ensures var n := if |s| == 1 then s[0] else Number(s[1..]);
            Allowed(FormOf(s[0]), n) && LengthBytes(FormOf(s[0]), n) == s
  {
    CodeBack(s[0]);
    BigEndianOfNumber(s[1..]);
    hide BigEndian, Number;
    assert Pow256(2) == 0x1_0000;
    assert s == [s[0]] + s[1..];
  }

  /** And a frame is read only off bytes that encode it. */
  lemma FrameWasSent(s: seq<Byte>, severed: bool) returns (form: Form)
    requires Parsed(s, severed).Got?
    ensures var r := Parsed(s, severed);
            Allowed(form, |r.frame.payload|) && s == Encoded(r.frame, form) + r.rest
  {
    hide Number, LengthBytes, Allowed, Pow256, FirstByte, Reserved, Final, Opcode, MaskBit, LengthCode;
    var f := Parsed(s, severed).frame;
    FirstByteBack(s[0]);
    CodeBack(s[1]);
    var start := 2 + ExtendedWidth(s[1]);
    LengthBack(s[1..start]);
    assert s[1..start][1..] == s[2..start];
    form := FormOf(s[1]);
    assert s == [s[0]] + s[1..start] + f.payload + s[start + |f.payload|..];
  }

  // --- writing a frame (section 5.3) -----------------------------------------------------------------------

  type Mask = m: seq<Byte> | |m| == 4 witness [0, 0, 0, 0]

  function XorBits(a: nat, b: nat, width: nat): (n: nat)
  {
    if width == 0 then 0 else 2 * XorBits(a / 2, b / 2, width - 1) + (if a % 2 == b % 2 then 0 else 1)
  }

  function Pow2(width: nat): (n: nat)
  {
    if width == 0 then 1 else 2 * Pow2(width - 1)
  }

  lemma {:induction false} XorBitsTwice(a: nat, b: nat, width: nat)
    ensures XorBits(a, b, width) < Pow2(width)
    ensures a < Pow2(width) ==> XorBits(XorBits(a, b, width), b, width) == a
  {
    if width > 0 {
      XorBitsTwice(a / 2, b / 2, width - 1);
      var half := XorBits(a / 2, b / 2, width - 1);
      LastBit(half, if a % 2 == b % 2 then 0 else 1);
    }
  }

  lemma LastBit(half: nat, bit: nat)
    requires bit < 2
    ensures (2 * half + bit) / 2 == half && (2 * half + bit) % 2 == bit
  {
  }

  function Xor(a: Byte, b: Byte): (r: Byte)
  {
    XorBitsTwice(a, b, 8);
    assert Pow2(2) == 4 && Pow2(4) == 16 && Pow2(6) == 64 && Pow2(8) == 256;
    XorBits(a, b, 8)
  }

  function BitOf(a: nat, i: nat): (n: nat)
  {
    if i == 0 then a % 2 else BitOf(a / 2, i - 1)
  }

  lemma {:induction false} XorBitsMean(a: nat, b: nat, width: nat, i: nat)
    requires i < width
    ensures BitOf(XorBits(a, b, width), i) == if BitOf(a, i) == BitOf(b, i) then 0 else 1
  {
    var half := XorBits(a / 2, b / 2, width - 1);
    LastBit(half, if a % 2 == b % 2 then 0 else 1);
    if i > 0 {
      XorBitsMean(a / 2, b / 2, width - 1, i - 1);
    }
  }

  /** Each bit of the result is set exactly when the two bits differ. */
  lemma XorMeans(a: Byte, b: Byte, i: nat)
    requires i < 8
    ensures BitOf(Xor(a, b), i) == if BitOf(a, i) == BitOf(b, i) then 0 else 1
  {
    XorBitsMean(a, b, 8, i);
  }

  lemma XorTwice(a: Byte, b: Byte)
    ensures Xor(Xor(a, b), b) == a
  {
    XorBitsTwice(a, b, 8);
    assert Pow2(2) == 4 && Pow2(4) == 16 && Pow2(6) == 64 && Pow2(8) == 256;
  }

  function Masked(payload: seq<Byte>, mask: Mask): (r: seq<Byte>)
    ensures |r| == |payload| && forall i :: 0 <= i < |r| ==> r[i] == Xor(payload[i], mask[i % 4])
  {
    seq(|payload|, i requires 0 <= i < |payload| => Xor(payload[i], mask[i % 4]))
  }

  lemma MaskingTwice(payload: seq<Byte>, mask: Mask)
    ensures Masked(Masked(payload, mask), mask) == payload
  {
    var twice := Masked(Masked(payload, mask), mask);
    forall i | 0 <= i < |payload| ensures twice[i] == payload[i] {
      XorTwice(payload[i], mask[i % 4]);
    }
  }

  function ClientHeader(opcode: Nibble, n: nat): (out: seq<Byte>)
    requires n <= MAX_SENT
  {
    if n <= 125 then [FirstByte(true, opcode), 0x80 + n]
    else [FirstByte(true, opcode), 0x80 + 126, n / 256, n % 256]
  }

  function ClientFrame(opcode: Nibble, payload: seq<Byte>, mask: Mask): (out: seq<Byte>)
    requires |payload| <= MAX_SENT
  {
    ClientHeader(opcode, |payload|) + mask + Masked(payload, mask)
  }

  /** A server's reading of a final, masked frame with a 7-bit or 16-bit length, and what follows it. */
  function ServerReads(s: seq<Byte>): (r: Option<(Nibble, seq<Byte>, seq<Byte>)>)
  {
    if |s| < 2 || Reserved(s[0]) || !Final(s[0]) || !MaskBit(s[1]) || LengthCode(s[1]) == 127 then None
    else
      var start := 2 + ExtendedWidth(LengthCode(s[1]));
      if |s| < start + 4 then None
      else
        var n := if start == 2 then LengthCode(s[1]) else Number(s[2..start]);
        var from := start + 4;
        if |s| < from + n then None
        else Some((Opcode(s[0]), Masked(s[from..from + n], s[start..from]), s[from + n..]))
  }

  lemma ClientFirstBytes(opcode: Nibble, n: nat)
    requires n <= MAX_SENT
    ensures var h := ClientHeader(opcode, n);
            && |h| == 2 + ExtendedWidth(LengthCode(h[1]))
            && !Reserved(h[0]) && Final(h[0]) && Opcode(h[0]) == opcode
            && MaskBit(h[1]) && LengthCode(h[1]) != 127
            && (if |h| == 2 then LengthCode(h[1]) else Number(h[2..])) == n
  {
    if n > 125 {
      var tail := ClientHeader(opcode, n)[2..];
      assert tail[..1] == [n / 256] && tail[..1][..0] == [];
      assert Number(tail) == 256 * Number(tail[..1]) + n % 256;
    }
  }

  /** Unmasking what was written gives back the opcode and the payload, whatever mask was drawn. */
  lemma ServerGetsIt(opcode: Nibble, payload: seq<Byte>, mask: Mask, rest: seq<Byte>)
    requires |payload| <= 65535
    ensures ServerReads(ClientFrame(opcode, payload, mask) + rest) == Some((opcode, payload, rest))
  {
    hide Number, ClientHeader, Masked, Reserved, Final, Opcode, MaskBit, LengthCode, ExtendedWidth;
    var h := ClientHeader(opcode, |payload|);
    var s := ClientFrame(opcode, payload, mask) + rest;
    ClientFirstBytes(opcode, |payload|);
    MaskingTwice(payload, mask);
    assert s[0] == h[0] && s[1] == h[1];
    assert s[2..|h|] == h[2..];
    assert s[|h|..|h| + 4] == mask;
    assert s[|h| + 4..|h| + 4 + |payload|] == Masked(payload, mask);
    assert s[|h| + 4 + |payload|..] == rest;
  }

  // --- frames that are cut off --------------------------------------------------------------------------------

  /** Some bytes of a frame, but not all of it: more bytes would make it one. */
  ghost predicate Torn(s: seq<Byte>)
  {
    s != [] && !Parsed(s, false).Got? && exists t :: Parsed(s + t, false).Got?
  }

  /** All of a frame's header or of its extended length, and not one byte of what has to follow. */
  predicate HeaderOnly(s: seq<Byte>)
  {
    && |s| >= 2 && !Reserved(s[0]) && !MaskBit(s[1])
    && var start := 2 + ExtendedWidth(LengthCode(s[1]));
       var n := if start == 2 then LengthCode(s[1]) else if |s| >= start then Number(s[2..start]) else 0;
       (|s| == 2 < start) || (|s| == start && 0 < n <= MAX_FRAME)
  }

  /** A stream that ends there is at its end for errors.Is, under a code of its own, and nowhere else. */
  lemma WrappedEndMeans(s: seq<Byte>)
    ensures Parsed(s, false).Stopped? && Parsed(s, false).error == WrappedEnd <==> HeaderOnly(s)
    ensures Parsed(s, false).Stopped? && Parsed(s, false).error == EndOfStream <==> |s| < 2
  {
    hide Number, Reserved, MaskBit, Final, Opcode, LengthCode;
  }

  function Zeros(n: nat): (s: seq<Byte>)
    ensures |s| == n
  {
    seq(n, i => 0)
  }

  lemma {:induction false} ZerosAreZero(n: nat)
    ensures Number(Zeros(n)) == 0
  {
    if n > 0 {
      ZerosAreZero(n - 1);
      assert Zeros(n)[..n - 1] == Zeros(n - 1);
    }
  }

  lemma OneByteIsTorn(s: seq<Byte>)
    requires |s| == 1
    ensures Torn(s) <==> !Reserved(s[0])
  {
    hide Number;
    if Reserved(s[0]) {
      forall t ensures !Parsed(s + t, false).Got? {
        if |s + t| >= 2 {
          assert (s + t)[0] == s[0];
        }
      }
    } else {
      assert (s + [0])[0] == s[0] && (s + [0])[1] == 0;
      assert Parsed(s + [0], false).Got?;
    }
  }

  lemma HeaderOnlyIsTorn(s: seq<Byte>)
    requires HeaderOnly(s)
    ensures Torn(s)
  {
    WrappedEndMeans(s);
    var start := 2 + ExtendedWidth(LengthCode(s[1]));
    var more := if |s| == start then Zeros(if start == 2 then LengthCode(s[1]) else Number(s[2..start])) else Zeros(start - 2);
    hide Number, Reserved, MaskBit, Final, Opcode, LengthCode, Zeros;
    var whole := s + more;
    assert whole[0] == s[0] && whole[1] == s[1];
    if |s| == start {
      assert whole[2..start] == s[2..start];
    } else {
      ZerosAreZero(start - 2);
      assert whole[2..start] == more;
    }
    assert Parsed(whole, false).Got?;
  }

  /** Of the torn frames exactly these end in what counts as the end of the stream. */
  lemma TornAtTheEnd(s: seq<Byte>)
    requires Parsed(s, false).Stopped? && IsEnd(Parsed(s, false).error)
    ensures Torn(s) <==> (|s| == 1 && !Reserved(s[0])) || HeaderOnly(s)
  {
    hide Parsed, HeaderOnly, Reserved;
    WrappedEndMeans(s);
    if |s| == 1 {
      OneByteIsTorn(s);
      ShortIsNoHeader(s);
    } else if HeaderOnly(s) {
      HeaderOnlyIsTorn(s);
    }
  }

  lemma ShortIsNoHeader(s: seq<Byte>)
    requires |s| < 2
    ensures !HeaderOnly(s)
  {
  }
}
