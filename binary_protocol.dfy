/**
 * The serial framing codec: CRC-16/MODBUS, little-endian header fields,
 * payload escaping and the frame layout
 *
 *   [0x7E][length: 4 bytes LE][CRC: 2 bytes LE][type 0x01][escaped payload][0x7F]
 *
 * The receive state machine is specified here as the pure transition
 * function `Step` and its fold `Run`; the `Framer` class in
 * binary_framer.dfy keeps the same state in fields and is proved against
 * them.
 */
module BinaryProtocol {
  import opened Wrappers
  import opened Bits

  const START_MARKER: byte := 0x7E
  const END_MARKER: byte := 0x7F
  const ESCAPE_MARKER: byte := 0x7D
  const JSON_MESSAGE_TYPE: byte := 0x01
  const MAX_PAYLOAD_SIZE: nat := 8192
  const HEADER_SIZE: nat := 7
  const MESSAGE_TIMEOUT_MS: nat := 1000

  /** XOR with ESCAPE_XOR (0x20): flips bit 5 of the byte. */
  function Xor20(b: byte): (r: byte)
    ensures (r / 32) % 2 != (b / 32) % 2 && r % 32 == b % 32 && r / 64 == b / 64
  {
    if (b / 32) % 2 == 1 then b - 32 else b + 32
  }

  lemma Xor20Involutive(b: byte)
    ensures Xor20(Xor20(b)) == b
  {
  }

  // ---------------------------------------------------------------------------
  // CRC-16/MODBUS: initial value 0xFFFF, reflected polynomial 0xA001, no final XOR
  // ---------------------------------------------------------------------------

  function CrcShift(crc: bv16): bv16
  {
    if crc & 1 == 1 then (crc >> 1) ^ 0xA001 else crc >> 1
  }

  function CrcShifts(crc: bv16, n: nat): bv16
    decreases n
  {
    if n == 0 then crc else CrcShifts(CrcShift(crc), n - 1)
  }

  /** A byte zero-extended to 16 bits, bit by bit. */
  function ByteToBv16(b: byte): bv16
  {
    (if b % 2 == 1 then 1 else 0) | (if (b / 2) % 2 == 1 then 2 else 0)
    | (if (b / 4) % 2 == 1 then 4 else 0) | (if (b / 8) % 2 == 1 then 8 else 0)
    | (if (b / 16) % 2 == 1 then 16 else 0) | (if (b / 32) % 2 == 1 then 32 else 0)
    | (if (b / 64) % 2 == 1 then 64 else 0) | (if (b / 128) % 2 == 1 then 128 else 0)
  }

  /** One byte folded into the running CRC: XOR it in, then eight shift steps. */
  function CrcUpdate(crc: bv16, b: byte): bv16
  {
    CrcShifts(crc ^ ByteToBv16(b), 8)
  }

  function CrcFrom(crc: bv16, data: seq<byte>): bv16
    decreases |data|
  {
    if data == [] then crc else CrcFrom(CrcUpdate(crc, data[0]), data[1..])
  }

  function Crc16(data: seq<byte>): bv16
  {
    CrcFrom(0xFFFF, data)
  }

  /** CRC16Calculator::calculate: the outer loop over the bytes, on a 16-bit register. */
  method Crc16Calculate(data: seq<byte>) returns (crc: uint16)
    ensures crc == PayloadCrc(data)
  {
    var reg: bv16 := 0xFFFF;
    var i := 0;
    while i < |data|
      invariant 0 <= i <= |data|
      invariant CrcFrom(reg, data[i..]) == Crc16(data)
    {
      assert data[i..][1..] == data[i + 1..];
      reg := CrcByte(reg, data[i]);
      i := i + 1;
    }
    crc := reg as int;
  }

  /** The inner loop of CRC16Calculator::calculate: one byte XORed in, then eight shift steps. */
  method CrcByte(reg: bv16, b: byte) returns (c: bv16)
    ensures c == CrcUpdate(reg, b)
  {
    c := reg ^ ByteToBv16(b);
    var j := 0;
    while j < 8
      invariant 0 <= j <= 8
      invariant CrcShifts(c, 8 - j) == CrcUpdate(reg, b)
    {
      if c & 1 == 1 {
        c := (c >> 1) ^ 0xA001;
      } else {
        c := c >> 1;
      }
      j := j + 1;
    }
  }

  /** The CRC is a left fold: checksumming a concatenation resumes from the first part's CRC. */
  lemma {:induction false} CrcConcat(crc: bv16, a: seq<byte>, b: seq<byte>)
    ensures CrcFrom(crc, a + b) == CrcFrom(CrcFrom(crc, a), b)
    decreases |a|
  {
    if a != [] {
      assert (a + b)[0] == a[0] && (a + b)[1..] == a[1..] + b;
      CrcConcat(CrcUpdate(crc, a[0]), a[1..], b);
    } else {
      assert a + b == b;
    }
  }

  /** The empty input leaves the initial value, since there is no final XOR. */
  lemma CrcOfEmpty()
    ensures Crc16([]) == 0xFFFF
  {
  }

  /** One update of the check-value computation, from the widened byte and the shifted result. */
  lemma CrcStep(crc: bv16, b: byte, bits: bv16, next: bv16)
    requires ByteToBv16(b) == bits && CrcShifts(crc ^ bits, 8) == next
    ensures CrcUpdate(crc, b) == next
  {
  }

  lemma CrcFromCons(crc: bv16, d: seq<byte>)
    requires d != []
    ensures CrcFrom(crc, d) == CrcFrom(CrcUpdate(crc, d[0]), d[1..])
  {
  }

  lemma CheckValueStart()
    ensures CrcFrom(0xFFFF, [0x31, 0x32, 0x33]) == 0x7A75
  {
    var d: seq<byte> := [0x31, 0x32, 0x33];
    CrcStep(0xFFFF, 0x31, 0x31, 0x947E);
    CrcStep(0x947E, 0x32, 0x32, 0xF595);
    CrcStep(0xF595, 0x33, 0x33, 0x7A75);
    CrcFromCons(0xFFFF, d);
    CrcFromCons(0x947E, d[1..]);
    CrcFromCons(0xF595, d[2..]);
    assert d[2..][1..] == [];
  }

  lemma CheckValueMiddle()
    ensures CrcFrom(0x7A75, [0x34, 0x35, 0x36]) == 0x32E4
  {
    var d: seq<byte> := [0x34, 0x35, 0x36];
    CrcStep(0x7A75, 0x34, 0x34, 0x30BA);
    CrcStep(0x30BA, 0x35, 0x35, 0xA471);
    CrcStep(0xA471, 0x36, 0x36, 0x32E4);
    CrcFromCons(0x7A75, d);
    CrcFromCons(0x30BA, d[1..]);
    CrcFromCons(0xA471, d[2..]);
    assert d[2..][1..] == [];
  }

  lemma CheckValueEnd()
    ensures CrcFrom(0x32E4, [0x37, 0x38, 0x39]) == 0x4B37
  {
    var d: seq<byte> := [0x37, 0x38, 0x39];
    CrcStep(0x32E4, 0x37, 0x37, 0x9D73);
    CrcStep(0x9D73, 0x38, 0x38, 0x37DD);
    CrcStep(0x37DD, 0x39, 0x39, 0x4B37);
    CrcFromCons(0x32E4, d);
    CrcFromCons(0x9D73, d[1..]);
    CrcFromCons(0x37DD, d[2..]);
    assert d[2..][1..] == [];
  }

  /** The catalogue check value of CRC-16/MODBUS: the ASCII bytes "123456789" give 0x4B37. */
  lemma Crc16CheckValue(d: seq<byte>)
    requires d == [0x31, 0x32, 0x33, 0x34, 0x35, 0x36, 0x37, 0x38, 0x39]
    ensures Crc16(d) == 0x4B37
  {
    var d1, d2, d3 := d[..3], d[3..6], d[6..];
    assert d1 == [0x31, 0x32, 0x33] && d2 == [0x34, 0x35, 0x36] && d3 == [0x37, 0x38, 0x39];
    assert d == d1 + d2 + d3;
    CheckValueStart();
    CheckValueMiddle();
    CheckValueEnd();
    CrcConcat(0xFFFF, d1, d2);
    CrcConcat(0xFFFF, d1 + d2, d3);
  }

  // ---------------------------------------------------------------------------
  // Little-endian header fields (Utils)
  // ---------------------------------------------------------------------------

  /** Division by 256 undoes a multiply-and-add of a byte. */
  lemma DivMod256(q: int, r: byte)
    ensures (q * 256 + r) / 256 == q && (q * 256 + r) % 256 == r
  {
  }

  /** Utils::bytesToUint32LE over the first four bytes, least significant first. */
  function BytesToUInt32LE(b: seq<byte>): (v: uint32)
    requires |b| >= 4
  {
    b[0] as int + 256 * (b[1] as int + 256 * (b[2] as int + 256 * b[3] as int))
  }

  function BytesToUInt16LE(b: seq<byte>): (v: uint16)
    requires |b| >= 2
  {
    b[0] as int + 256 * b[1] as int
  }

  /** Utils::uint32ToLittleEndian: least significant byte first. */
  function UInt32ToLEBytes(v: uint32): (r: seq<byte>)
    ensures |r| == 4
  {
    var v1 := v / 256;
    var v2 := v1 / 256;
    [v % 256, v1 % 256, v2 % 256, v2 / 256]
  }

  function UInt16ToLEBytes(v: uint16): (r: seq<byte>)
    ensures |r| == 2
  {
    [v % 256, v / 256]
  }

  /** Reading back a written 32-bit value gives the value. */
  lemma LE32RoundTrip(v: uint32)
    ensures BytesToUInt32LE(UInt32ToLEBytes(v)) == v
  {
  }

  lemma LE16RoundTrip(v: uint16)
    ensures BytesToUInt16LE(UInt16ToLEBytes(v)) == v
  {
  }

  /** The other direction: four bytes read as a value and written back are the same bytes. */
  lemma LE32BytesRoundTrip(b: seq<byte>)
    requires |b| == 4
    ensures UInt32ToLEBytes(BytesToUInt32LE(b)) == b
  {
    var w2: int := b[2] as int + 256 * b[3] as int;
    var w1: int := b[1] as int + 256 * w2;
    DivMod256(w1, b[0]);
    DivMod256(w2, b[1]);
    DivMod256(b[3], b[2]);
  }

  lemma LE16BytesRoundTrip(b: seq<byte>)
    requires |b| == 2
    ensures UInt16ToLEBytes(BytesToUInt16LE(b)) == b
  {
    DivMod256(b[1], b[0]);
  }

  /** Utils::validateFrame: long enough for markers and header, framed by 0x7E ... 0x7F. */
  predicate ValidateFrame(frame: seq<byte>)
  {
    |frame| >= HEADER_SIZE + 2 && frame[0] == START_MARKER && frame[|frame| - 1] == END_MARKER
  }

  // ---------------------------------------------------------------------------
  // Escaping and the encoded frame
  // ---------------------------------------------------------------------------

  predicate IsMarker(b: byte)
  {
    b == START_MARKER || b == END_MARKER || b == ESCAPE_MARKER
  }

  /** The bytes a single payload byte is sent as. */
  function EscapeByte(b: byte): seq<byte>
  {
    if IsMarker(b) then [ESCAPE_MARKER, Xor20(b)] else [b]
  }

  function Escape(p: seq<byte>): seq<byte>
    decreases |p|
  {
    if p == [] then [] else EscapeByte(p[0]) + Escape(p[1..])
  }

  /** The receiver's view of escaping: 0x7D drops out and XORs the byte after it. */
  function Unescape(e: seq<byte>): seq<byte>
    decreases |e|
  {
    if e == [] then []
    else if e[0] == ESCAPE_MARKER && |e| >= 2 then [Xor20(e[1])] + Unescape(e[2..])
    else if e[0] == ESCAPE_MARKER then []
    else [e[0]] + Unescape(e[1..])
  }

  lemma {:induction false} UnescapeEscape(p: seq<byte>)
    ensures Unescape(Escape(p)) == p
    decreases |p|
  {
    if p != [] {
      var e := Escape(p);
      assert e == EscapeByte(p[0]) + Escape(p[1..]);
      UnescapeEscape(p[1..]);
      if IsMarker(p[0]) {
        assert e[2..] == Escape(p[1..]);
      } else {
        assert e[1..] == Escape(p[1..]);
      }
    }
  }

  /** Escaping works byte by byte, so it distributes over concatenation. */
  lemma {:induction false} EscapeConcat(a: seq<byte>, b: seq<byte>)
    ensures Escape(a + b) == Escape(a) + Escape(b)
    decreases |a|
  {
    if a == [] {
      assert a + b == b;
    } else {
      assert (a + b)[0] == a[0] && (a + b)[1..] == a[1..] + b;
      EscapeConcat(a[1..], b);
      assert EscapeByte(a[0]) + (Escape(a[1..]) + Escape(b)) == (EscapeByte(a[0]) + Escape(a[1..])) + Escape(b);
    }
  }

  /** Escaping one more byte appends that byte's escape. */
  lemma EscapeSnoc(s: seq<byte>, b: byte)
    ensures Escape(s + [b]) == Escape(s) + EscapeByte(b)
  {
    EscapeConcat(s, [b]);
    assert Escape([b]) == EscapeByte(b) + Escape([]);
  }

  /** No start or end marker survives escaping, so neither can appear inside the escaped payload. */
  lemma {:induction false} EscapeHasNoMarkers(p: seq<byte>)
    ensures forall i :: 0 <= i < |Escape(p)| ==> Escape(p)[i] != START_MARKER && Escape(p)[i] != END_MARKER
    ensures |p| <= |Escape(p)| <= 2 * |p|
    decreases |p|
  {
    if p != [] {
      EscapeHasNoMarkers(p[1..]);
      var e := Escape(p);
      var h := EscapeByte(p[0]);
      assert e == h + Escape(p[1..]);
      forall i | 0 <= i < |e| ensures e[i] != START_MARKER && e[i] != END_MARKER {
        if i >= |h| {
          assert e[i] == Escape(p[1..])[i - |h|];
        }
      }
    }
  }

  /** Start marker, length, CRC and type: the eight bytes before the escaped payload. */
  function FrameHeadOf(len: uint32, crc: uint16): (h: seq<byte>)
    ensures |h| == 8
  {
    [START_MARKER] + UInt32ToLEBytes(len) + UInt16ToLEBytes(crc) + [JSON_MESSAGE_TYPE]
  }

  /** The CRC field of a payload's frame. */
  function PayloadCrc(payload: seq<byte>): uint16
  {
    Crc16(payload) as int
  }

  function FrameHead(payload: seq<byte>): (h: seq<byte>)
    requires |payload| <= MAX_PAYLOAD_SIZE
    ensures |h| == 8
  {
    FrameHeadOf(|payload|, PayloadCrc(payload))
  }

  /** The complete frame for a payload; empty when the payload is empty or too long. */
  function EncodeFrame(payload: seq<byte>): seq<byte>
  {
    if |payload| == 0 || |payload| > MAX_PAYLOAD_SIZE then []
    else FrameHead(payload) + Escape(payload) + [END_MARKER]
  }

  /** The fields of a head read back: length, CRC and type. */
  lemma HeadLayout(len: uint32, crc: uint16)
    ensures var h := FrameHeadOf(len, crc);
      h[0] == START_MARKER && BytesToUInt32LE(h[1..5]) == len && BytesToUInt16LE(h[5..7]) == crc
      && h[7] == JSON_MESSAGE_TYPE
  {
    var h := FrameHeadOf(len, crc);
    var lenBytes := UInt32ToLEBytes(len);
    var crcBytes := UInt16ToLEBytes(crc);
    assert h == [START_MARKER] + lenBytes + crcBytes + [JSON_MESSAGE_TYPE];
    assert h[1..5] == lenBytes && h[5..7] == crcBytes;
    LE32RoundTrip(len);
    LE16RoundTrip(crc);
  }

  /** A head, a body and the end marker, read back piece by piece. */
  lemma FrameOfLayout(h: seq<byte>, e: seq<byte>)
    requires |h| == 8
    ensures var f := h + e + [END_MARKER];
      |f| == 9 + |e| && f[..8] == h && f[1..5] == h[1..5] && f[5..7] == h[5..7] && f[0] == h[0] && f[7] == h[7]
      && f[|f| - 1] == END_MARKER && f[8..|f| - 1] == e
  {
    var f := h + e + [END_MARKER];
    assert f[..8] == h;
    assert f[8..|f| - 1] == e;
  }

  /** `f` is a frame announcing length `len` and CRC `crc` around the escaped body `e`. */
  predicate Framed(f: seq<byte>, len: uint32, crc: uint16, e: seq<byte>)
  {
    |f| == 9 + |e|
    && f[0] == START_MARKER && f[|f| - 1] == END_MARKER
    && BytesToUInt32LE(f[1..5]) == len
    && BytesToUInt16LE(f[5..7]) == crc
    && f[7] == JSON_MESSAGE_TYPE
    && f[8..|f| - 1] == e
    && ValidateFrame(f)
  }

  lemma FrameOfFields(len: uint32, crc: uint16, e: seq<byte>)
    ensures Framed(FrameHeadOf(len, crc) + e + [END_MARKER], len, crc, e)
  {
    HeadLayout(len, crc);
    FrameOfLayout(FrameHeadOf(len, crc), e);
  }

  /** The header of a frame carries the unescaped length, the CRC of the unescaped payload and type 1. */
  lemma FrameLayout(payload: seq<byte>)
    requires 0 < |payload| <= MAX_PAYLOAD_SIZE
    ensures Framed(EncodeFrame(payload), |payload|, PayloadCrc(payload), Escape(payload))
  {
    var f := FrameHeadOf(|payload|, PayloadCrc(payload)) + Escape(payload) + [END_MARKER];
    assert EncodeFrame(payload) == f;
    FrameOfFields(|payload|, PayloadCrc(payload), Escape(payload));
  }

  lemma EncodeRejects(payload: seq<byte>)
    ensures EncodeFrame(payload) == [] <==> (|payload| == 0 || |payload| > MAX_PAYLOAD_SIZE)
  {
  }

  // ---------------------------------------------------------------------------
  // The receive state machine (processIncomingBytes and its helpers)
  // ---------------------------------------------------------------------------

  datatype ReceiveState = WaitingForStart | ReadingHeader | ReadingPayload

  /** ProtocolStatistics (the 32-bit counters are unbounded here). */
  datatype Statistics = Statistics(
    messagesReceived: nat, messagesSent: nat, bytesReceived: nat, bytesTransmitted: nat,
    framingErrors: nat, crcErrors: nat, timeoutErrors: nat, bufferOverflowErrors: nat)

  const ZeroStatistics := Statistics(0, 0, 0, 0, 0, 0, 0, 0)

  /** Every field of BinaryProtocolFramer that the receive path reads or writes. */
  datatype Receiver = Receiver(
    state: ReceiveState, header: seq<byte>, payload: seq<byte>,
    expectedLength: uint32, expectedCrc: uint16, messageType: byte,
    startTime: uint32, escapeNext: bool, stats: Statistics)

  /** resetStateMachine: everything but the statistics back to its initial value. */
  function Reset(r: Receiver): Receiver
  {
    Receiver(WaitingForStart, [], [], 0, 0, 0, 0, false, r.stats)
  }

  /** isTimeout, with the unsigned wrap-around of `millis() - messageStartTime_`. */
  predicate TimedOut(r: Receiver, now: uint32)
  {
    (now - r.startTime) % TWO32 > MESSAGE_TIMEOUT_MS
  }

  /** Why processCompleteMessage refused a frame. */
  datatype FrameError = DanglingEscape | LengthMismatch | CrcMismatch | UnsupportedType | InvalidCharacter | Unbalanced

  datatype Completion = Accepted(message: seq<byte>) | Rejected(reason: FrameError)

  /** The byte test of processCompleteMessage: no NUL and no control byte except tab, LF and CR. */
  predicate AllowedByte(b: byte)
  {
    b != 0 && (b < 32 ==> b == 9 || b == 10 || b == 13)
  }

  predicate NoControlBytes(p: seq<byte>)
  {
    forall i :: 0 <= i < |p| ==> AllowedByte(p[i])
  }

  /** The brace/bracket scanner's state; quotes open strings in which a backslash escapes one byte. */
  datatype Scan = Scan(braces: int, brackets: int, inString: bool, escaped: bool)

  function ScanByte(s: Scan, c: byte): Scan
  {
    if !s.inString then
      if c == '{' as int then s.(braces := s.braces + 1)
      else if c == '}' as int then s.(braces := s.braces - 1)
      else if c == '[' as int then s.(brackets := s.brackets + 1)
      else if c == ']' as int then s.(brackets := s.brackets - 1)
      else if c == '"' as int then s.(inString := true)
      else s
    else if s.escaped then s.(escaped := false)
    else if c == '\\' as int then s.(escaped := true)
    else if c == '"' as int then s.(inString := false)
    else s
  }

  /** The scanner after the first `n` bytes. */
  function ScanPrefix(p: seq<byte>, n: nat): Scan
    requires n <= |p|
  {
    if n == 0 then Scan(0, 0, false, false) else ScanByte(ScanPrefix(p, n - 1), p[n - 1])
  }

  predicate Balanced(p: seq<byte>)
  {
    var s := ScanPrefix(p, |p|);
    s.braces == 0 && s.brackets == 0 && !s.inString
  }

  /** processCompleteMessage's checks, in the source's order. */
  function CompleteMessage(r: Receiver): Completion
  {
    if r.escapeNext then Rejected(DanglingEscape)
    else if |r.payload| != r.expectedLength then Rejected(LengthMismatch)
    else if r.expectedLength == 0 then
      if PayloadCrc([]) != r.expectedCrc then Rejected(CrcMismatch)
      else if r.messageType != JSON_MESSAGE_TYPE then Rejected(UnsupportedType)
      else Accepted([])
    else if PayloadCrc(r.payload) != r.expectedCrc then Rejected(CrcMismatch)
    else if r.messageType != JSON_MESSAGE_TYPE then Rejected(UnsupportedType)
    else if !NoControlBytes(r.payload) then Rejected(InvalidCharacter)
    else if !Balanced(r.payload) then Rejected(Unbalanced)
    else Accepted(r.payload)
  }

  /** The counter a rejection increments: crcErrors for a CRC mismatch, framingErrors otherwise. */
  function CountRejection(s: Statistics, e: FrameError): Statistics
  {
    if e == CrcMismatch then s.(crcErrors := s.crcErrors + 1) else s.(framingErrors := s.framingErrors + 1)
  }

  /** processHeader followed by the caller's reaction to its result. */
  function AfterHeader(r: Receiver): Receiver
    requires |r.header| >= HEADER_SIZE
  {
    var len := BytesToUInt32LE(r.header[..4]);
    var crc := BytesToUInt16LE(r.header[4..6]);
    var r1 := r.(expectedLength := len, expectedCrc := crc, messageType := r.header[6]);
    if len > MAX_PAYLOAD_SIZE then
      var s := r.stats;
      Reset(r1).(stats := s.(bufferOverflowErrors := s.bufferOverflowErrors + 1, framingErrors := s.framingErrors + 1))
    else r1.(state := ReadingPayload)
  }

  /** processPayloadByte. */
  function PayloadByte(r: Receiver, b: byte): Receiver
  {
    if !r.escapeNext && b == ESCAPE_MARKER then r.(escapeNext := true)
    else
      var p := r.payload + [if r.escapeNext then Xor20(b) else b];
      if |p| > r.expectedLength then
        Reset(r).(stats := r.stats.(bufferOverflowErrors := r.stats.bufferOverflowErrors + 1))
      else r.(payload := p, escapeNext := false)
  }

  datatype StepResult = StepResult(rx: Receiver, message: Option<seq<byte>>)

  /** The timeout test at the top of the byte loop: a frame in progress for too long is dropped and counted. */
  function TimeoutCheck(r: Receiver, now: uint32): Receiver
  {
    if r.state != WaitingForStart && TimedOut(r, now)
    then Reset(r).(stats := r.stats.(timeoutErrors := r.stats.timeoutErrors + 1))
    else r
  }

  /** The end marker of a frame: processCompleteMessage, the counters, and the reset. */
  function EndOfFrame(r: Receiver): StepResult
  {
    match CompleteMessage(r)
    case Accepted(m) =>
      if m != [] then
        var s := r.stats;
        StepResult(Reset(r).(stats := s.(messagesReceived := s.messagesReceived + 1,
                                          bytesReceived := s.bytesReceived + |r.payload| + HEADER_SIZE + 2)),
                   Some(m))
      else StepResult(Reset(r), None)
    case Rejected(e) => StepResult(Reset(r).(stats := CountRejection(r.stats, e)), None)
  }

  /** The switch on the receive state for one byte. */
  function Dispatch(r: Receiver, b: byte, now: uint32): StepResult
  {
    match r.state
    case WaitingForStart =>
      if b == START_MARKER
      then StepResult(r.(state := ReadingHeader, header := [], payload := [], startTime := now, escapeNext := false), None)
      else StepResult(r, None)
    case ReadingHeader =>
      var r1 := r.(header := r.header + [b]);
      if |r1.header| >= HEADER_SIZE then StepResult(AfterHeader(r1), None) else StepResult(r1, None)
    case ReadingPayload =>
      if b == END_MARKER && !r.escapeNext then EndOfFrame(r)
      else StepResult(PayloadByte(r, b), None)
  }

  /** One iteration of the byte loop of processIncomingBytes, at clock value `now`. */
  function Step(r: Receiver, b: byte, now: uint32): StepResult
  {
    Dispatch(TimeoutCheck(r, now), b, now)
  }

  datatype RunResult = RunResult(rx: Receiver, messages: seq<seq<byte>>)

  function OptionToSeq(m: Option<seq<byte>>): seq<seq<byte>>
  {
    if m.Some? then [m.value] else []
  }

  /**
   * Any per-byte transition folded over a buffer, collecting the messages it
   * emits in order; `times[i]` is the clock reading while byte i is handled.
   */
  function Fold(r: Receiver, data: seq<byte>, times: seq<uint32>, step: (Receiver, byte, uint32) -> StepResult): RunResult
    requires |times| == |data|
    decreases |data|
  {
    if data == [] then RunResult(r, [])
    else
      var n := |data| - 1;
      var prev := Fold(r, data[..n], times[..n], step);
      var st := step(prev.rx, data[n], times[n]);
      RunResult(st.rx, prev.messages + OptionToSeq(st.message))
  }

  /** processIncomingBytes over a whole buffer: the final state and the messages in arrival order. */
  function Run(r: Receiver, data: seq<byte>, times: seq<uint32>): RunResult
    requires |times| == |data|
  {
    Fold(r, data, times, Step)
  }

  /** Folding one more byte is one more step after the fold of the prefix. */
  lemma FoldSnoc(r: Receiver, d: seq<byte>, t: seq<uint32>, x: byte, tx: uint32,
                 step: (Receiver, byte, uint32) -> StepResult)
    requires |t| == |d|
    ensures var prev := Fold(r, d, t, step);
      var st := step(prev.rx, x, tx);
      Fold(r, d + [x], t + [tx], step) == RunResult(st.rx, prev.messages + OptionToSeq(st.message))
  {
    var d1, t1 := d + [x], t + [tx];
    assert d1[..|d1| - 1] == d && t1[..|t1| - 1] == t;
    assert d1[|d1| - 1] == x && t1[|t1| - 1] == tx;
  }

  /** Feeding a buffer in two pieces is the same as feeding it at once. */
  lemma {:induction false} FoldConcat(r: Receiver, a: seq<byte>, b: seq<byte>, ta: seq<uint32>, tb: seq<uint32>,
                                      step: (Receiver, byte, uint32) -> StepResult)
    requires |ta| == |a| && |tb| == |b|
    ensures Fold(r, a + b, ta + tb, step).rx == Fold(Fold(r, a, ta, step).rx, b, tb, step).rx
    ensures Fold(r, a + b, ta + tb, step).messages ==
            Fold(r, a, ta, step).messages + Fold(Fold(r, a, ta, step).rx, b, tb, step).messages
    decreases |b|
  {
    if b == [] {
      assert a + b == a && ta + tb == ta;
    } else {
      var n := |b| - 1;
      var b0, tb0 := b[..n], tb[..n];
      assert b == b0 + [b[n]] && tb == tb0 + [tb[n]];
      assert a + b == (a + b0) + [b[n]] && ta + tb == (ta + tb0) + [tb[n]];
      var first := Fold(r, a, ta, step);
      var prev := Fold(r, a + b0, ta + tb0, step);
      var rest := Fold(first.rx, b0, tb0, step);
      FoldConcat(r, a, b0, ta, tb0, step);
      var st := step(prev.rx, b[n], tb[n]);
      FoldSnoc(r, a + b0, ta + tb0, b[n], tb[n], step);
      FoldSnoc(first.rx, b0, tb0, b[n], tb[n], step);
      assert prev.messages + OptionToSeq(st.message) == first.messages + (rest.messages + OptionToSeq(st.message));
    }
  }

  lemma RunConcat(r: Receiver, a: seq<byte>, b: seq<byte>, ta: seq<uint32>, tb: seq<uint32>)
    requires |ta| == |a| && |tb| == |b|
    ensures Run(r, a + b, ta + tb).rx == Run(Run(r, a, ta).rx, b, tb).rx
    ensures Run(r, a + b, ta + tb).messages == Run(r, a, ta).messages + Run(Run(r, a, ta).rx, b, tb).messages
  {
    FoldConcat(r, a, b, ta, tb, Step);
  }

  /** A single byte is a single step. */
  lemma RunOne(r: Receiver, b: byte, t: uint32)
    ensures Run(r, [b], [t]) == RunResult(Step(r, b, t).rx, OptionToSeq(Step(r, b, t).message))
  {
    var st := Step(r, b, t);
    assert [b][..0] == [] && [t][..0] == [];
    assert Fold(r, [], [], Step) == RunResult(r, []);
    assert [] + OptionToSeq(st.message) == OptionToSeq(st.message);
    assert Fold(r, [b], [t], Step) == RunResult(st.rx, Fold(r, [], [], Step).messages + OptionToSeq(st.message));
  }

  // ---------------------------------------------------------------------------
  // Properties of the receiver
  // ---------------------------------------------------------------------------

  /** The initial receiver of a freshly constructed framer. */
  function Initial(): Receiver
  {
    Receiver(WaitingForStart, [], [], 0, 0, 0, 0, false, ZeroStatistics)
  }

  /** processCompleteMessage refuses exactly on these conditions (both directions). */
  lemma CompleteRejectsExactly(r: Receiver)
    ensures CompleteMessage(r).Rejected? <==>
      (r.escapeNext
       || |r.payload| != r.expectedLength
       || (r.expectedLength == 0 && (PayloadCrc([]) != r.expectedCrc || r.messageType != JSON_MESSAGE_TYPE))
       || (r.expectedLength != 0 && (PayloadCrc(r.payload) != r.expectedCrc || r.messageType != JSON_MESSAGE_TYPE
                                     || !NoControlBytes(r.payload) || !Balanced(r.payload))))
    ensures CompleteMessage(r).Accepted? ==> CompleteMessage(r).message == r.payload
  {
  }

  /** After an end marker the receiver is always back in WaitingForStart, with its buffers cleared. */
  lemma EndMarkerResets(r: Receiver, now: uint32)
    requires r.state == ReadingPayload && !r.escapeNext
    ensures var st := Step(r, END_MARKER, now);
      st.rx.state == WaitingForStart && st.rx.header == [] && st.rx.payload == [] && !st.rx.escapeNext
    ensures var st := Step(r, END_MARKER, now);
      !TimedOut(r, now) ==>
        (st.message.Some? <==> (CompleteMessage(r).Accepted? && CompleteMessage(r).message != []))
  {
  }

  /** A rejected frame yields no message and counts one error of its kind. */
  lemma RejectedFrameCounted(r: Receiver, now: uint32, e: FrameError)
    requires r.state == ReadingPayload && !r.escapeNext && !TimedOut(r, now)
    requires CompleteMessage(r) == Rejected(e)
    ensures Step(r, END_MARKER, now) == StepResult(Reset(r).(stats := CountRejection(r.stats, e)), None)
  {
  }

  /**
   * An end marker right after an escape never reaches processCompleteMessage:
   * it is un-escaped into payload byte 0x5F, so the dangling-escape rejection
   * cannot be reached from processIncomingBytes.
   */
  lemma EscapedEndMarkerIsData(r: Receiver, now: uint32)
    requires r.state == ReadingPayload && r.escapeNext && !TimedOut(r, now)
    requires |r.payload| < r.expectedLength
    ensures Step(r, END_MARKER, now) == StepResult(r.(payload := r.payload + [0x5F], escapeNext := false), None)
  {
  }

  /** A header announcing more than MAX_PAYLOAD_SIZE bytes resets the receiver and counts two errors. */
  lemma OversizedHeaderResets(r: Receiver, b: byte, now: uint32)
    requires r.state == ReadingHeader && |r.header| == HEADER_SIZE - 1 && !TimedOut(r, now)
    requires BytesToUInt32LE(r.header[..4]) > MAX_PAYLOAD_SIZE
    ensures var st := Step(r, b, now);
      st.message == None && st.rx == Reset(r).(stats := r.stats.(bufferOverflowErrors := r.stats.bufferOverflowErrors + 1,
                                                                  framingErrors := r.stats.framingErrors + 1))
  {
    var h := r.header + [b];
    assert h[..4] == r.header[..4];
  }

  /** More unescaped payload bytes than the header announced resets the receiver. */
  lemma PayloadOverflowResets(r: Receiver, b: byte, now: uint32)
    requires r.state == ReadingPayload && !TimedOut(r, now)
    requires |r.payload| == r.expectedLength
    requires r.escapeNext || (b != ESCAPE_MARKER && b != END_MARKER)
    ensures var st := Step(r, b, now);
      st.message == None && st.rx == Reset(r).(stats := r.stats.(bufferOverflowErrors := r.stats.bufferOverflowErrors + 1))
  {
  }

  /** A receiver that waited too long mid-frame is reset and counts a timeout before the byte is seen. */
  lemma TimeoutResets(r: Receiver, b: byte, now: uint32)
    requires r.state != WaitingForStart && TimedOut(r, now)
    ensures Step(r, b, now) ==
      Step(Reset(r).(stats := r.stats.(timeoutErrors := r.stats.timeoutErrors + 1)), b, now)
  {
  }

  /** Bytes outside a frame other than the start marker are ignored. */
  lemma NoiseIgnored(r: Receiver, b: byte, now: uint32)
    requires r.state == WaitingForStart && b != START_MARKER
    ensures Step(r, b, now) == StepResult(r, None)
  {
  }

  // --- decoding an encoded frame -------------------------------------------------

  /** A clock reading at which isTimeout is still false for a frame that started at `start`. */
  predicate InTime(start: uint32, t: uint32)
  {
    (t - start) % TWO32 <= MESSAGE_TIMEOUT_MS
  }

  predicate AllInTime(start: uint32, ts: seq<uint32>)
  {
    forall i :: 0 <= i < |ts| ==> InTime(start, ts[i])
  }

  lemma AllInTimeSlice(start: uint32, ts: seq<uint32>, i: nat, j: nat)
    requires AllInTime(start, ts) && i <= j <= |ts|
    ensures AllInTime(start, ts[i..j])
  {
    forall k | 0 <= k < j - i ensures InTime(start, ts[i..j][k]) {
      assert ts[i..j][k] == ts[i + k];
    }
  }

  lemma NoTimeoutInTime(r: Receiver, t: uint32)
    requires InTime(r.startTime, t)
    ensures !TimedOut(r, t)
  {
  }

  predicate InPayload(r: Receiver, expected: nat)
  {
    r.state == ReadingPayload && !r.escapeNext && r.expectedLength == expected
  }

  lemma RunEmpty(r: Receiver)
    ensures Run(r, [], []) == RunResult(r, [])
  {
  }

  /** Two silent runs in sequence are one silent run. */
  lemma RunThen(r: Receiver, a: seq<byte>, b: seq<byte>, ta: seq<uint32>, tb: seq<uint32>, r1: Receiver, r2: Receiver)
    requires |ta| == |a| && |tb| == |b|
    requires Run(r, a, ta) == RunResult(r1, [])
    requires Run(r1, b, tb) == RunResult(r2, [])
    ensures Run(r, a + b, ta + tb) == RunResult(r2, [])
  {
    RunConcat(r, a, b, ta, tb);
  }

  /** An escape marker followed by the flipped byte appends the original byte. */
  lemma EscapedPairStep(r: Receiver, b: byte, t0: uint32, t1: uint32, expected: nat)
    requires InPayload(r, expected) && |r.payload| < expected
    requires InTime(r.startTime, t0) && InTime(r.startTime, t1)
    ensures Run(r, [ESCAPE_MARKER, Xor20(b)], [t0, t1]) == RunResult(r.(payload := r.payload + [b]), [])
  {
    var mid := r.(escapeNext := true);
    NoTimeoutInTime(r, t0);
    RunOne(r, ESCAPE_MARKER, t0);
    NoTimeoutInTime(mid, t1);
    RunOne(mid, Xor20(b), t1);
    Xor20Involutive(b);
    RunThen(r, [ESCAPE_MARKER], [Xor20(b)], [t0], [t1], mid, r.(payload := r.payload + [b]));
    assert [ESCAPE_MARKER] + [Xor20(b)] == [ESCAPE_MARKER, Xor20(b)] && [t0] + [t1] == [t0, t1];
  }

  /** A byte that needs no escape is appended as it is. */
  lemma PlainByteStep(r: Receiver, b: byte, t: uint32, expected: nat)
    requires InPayload(r, expected) && |r.payload| < expected && !IsMarker(b) && InTime(r.startTime, t)
    ensures Run(r, [b], [t]) == RunResult(r.(payload := r.payload + [b]), [])
  {
    NoTimeoutInTime(r, t);
    RunOne(r, b, t);
  }

  /** One payload byte, escaped or not, is appended to the payload buffer. */
  lemma PayloadByteStep(r: Receiver, b: byte, ts: seq<uint32>, expected: nat)
    requires InPayload(r, expected) && |r.payload| < expected
    requires |ts| == |EscapeByte(b)| && AllInTime(r.startTime, ts)
    ensures Run(r, EscapeByte(b), ts) == RunResult(r.(payload := r.payload + [b]), [])
  {
    if IsMarker(b) {
      assert ts == [ts[0], ts[1]];
      EscapedPairStep(r, b, ts[0], ts[1], expected);
    } else {
      assert ts == [ts[0]];
      PlainByteStep(r, b, ts[0], expected);
    }
  }

  lemma EscapeCons(p: seq<byte>)
    requires p != []
    ensures Escape(p) == EscapeByte(p[0]) + Escape(p[1..])
  {
  }

  /** The first payload byte followed by the rest, once the rest is known to run through. */
  lemma PayloadPhaseCons(r: Receiver, p: seq<byte>, t1: seq<uint32>, t2: seq<uint32>, expected: nat)
    requires p != [] && InPayload(r, expected) && |r.payload| < expected
    requires |t1| == |EscapeByte(p[0])| && AllInTime(r.startTime, t1) && |t2| == |Escape(p[1..])|
    requires Run(r.(payload := r.payload + [p[0]]), Escape(p[1..]), t2) == RunResult(r.(payload := r.payload + p), [])
    ensures Run(r, Escape(p), t1 + t2) == RunResult(r.(payload := r.payload + p), [])
  {
    EscapeCons(p);
    PayloadByteStep(r, p[0], t1, expected);
    RunThen(r, EscapeByte(p[0]), Escape(p[1..]), t1, t2, r.(payload := r.payload + [p[0]]), r.(payload := r.payload + p));
  }

  lemma {:induction false} PayloadPhase(r: Receiver, p: seq<byte>, ts: seq<uint32>, expected: nat)
    requires InPayload(r, expected) && |r.payload| + |p| <= expected
    requires |ts| == |Escape(p)| && AllInTime(r.startTime, ts)
    ensures Run(r, Escape(p), ts) == RunResult(r.(payload := r.payload + p), [])
    decreases |p|
  {
    if p == [] {
      assert r.payload + p == r.payload;
      assert Escape(p) == [] && ts == [];
      RunEmpty(r);
    } else {
      var b := p[0];
      var r1 := r.(payload := r.payload + [b]);
      EscapeCons(p);
      var k := |EscapeByte(b)|;
      var t1, t2 := ts[..k], ts[k..];
      assert t1 + t2 == ts;
      AllInTimeSlice(r.startTime, ts, 0, k);
      AllInTimeSlice(r.startTime, ts, k, |ts|);
      assert r1.(payload := r1.payload + p[1..]) == r.(payload := r.payload + p) by {
        assert r.payload + [b] + p[1..] == r.payload + p;
      }
      PayloadPhase(r1, p[1..], t2, expected);
      PayloadPhaseCons(r, p, t1, t2, expected);
    }
  }

  lemma {:induction false} HeaderPhase(r: Receiver, h: seq<byte>, ts: seq<uint32>)
    requires r.state == ReadingHeader && r.header == [] && |h| < HEADER_SIZE
    requires |ts| == |h| && AllInTime(r.startTime, ts)
    ensures Run(r, h, ts) == RunResult(r.(header := h), [])
    decreases |h|
  {
    if h != [] {
      var n := |h| - 1;
      AllInTimeSlice(r.startTime, ts, 0, n);
      HeaderPhase(r, h[..n], ts[..n]);
      NoTimeoutInTime(r.(header := h[..n]), ts[n]);
      assert h[..n] + [h[n]] == h;
    } else {
      assert r.(header := h) == r;
    }
  }

  /** The receiver just after a start marker read at clock value `t0`. */
  function Started(r: Receiver, t0: uint32): Receiver
  {
    r.(state := ReadingHeader, header := [], payload := [], startTime := t0, escapeNext := false)
  }

  /** The receiver right after a frame head announcing `len` and `crc`, for a frame that started at `t0`. */
  function AfterHead(r: Receiver, len: uint32, crc: uint16, t0: uint32): Receiver
  {
    r.(state := ReadingPayload, header := FrameHeadOf(len, crc)[1..], payload := [], startTime := t0, escapeNext := false,
       expectedLength := len, expectedCrc := crc, messageType := JSON_MESSAGE_TYPE)
  }

  lemma StartStep(r: Receiver, t0: uint32)
    requires r.state == WaitingForStart
    ensures Run(r, [START_MARKER], [t0]) == RunResult(Started(r, t0), [])
  {
    RunOne(r, START_MARKER, t0);
  }

  /** The seventh header byte hands the whole header to processHeader. */
  lemma LastHeaderByte(r: Receiver, hdr: seq<byte>, t: uint32)
    requires r.state == ReadingHeader && InTime(r.startTime, t) && |hdr| == HEADER_SIZE && r.header == hdr[..6]
    ensures Run(r, [hdr[6]], [t]) == RunResult(AfterHeader(r.(header := hdr)), [])
  {
    NoTimeoutInTime(r, t);
    RunOne(r, hdr[6], t);
    assert r.header + [hdr[6]] == hdr;
  }

  /** processHeader reads back the length, CRC and type that the frame head carries. */
  lemma HeaderFields(r: Receiver, len: uint32, crc: uint16, t0: uint32)
    requires len <= MAX_PAYLOAD_SIZE
    ensures AfterHeader(Started(r, t0).(header := FrameHeadOf(len, crc)[1..])) == AfterHead(r, len, crc, t0)
  {
    var h := FrameHeadOf(len, crc);
    var hdr := h[1..];
    HeadLayout(len, crc);
    assert hdr[..4] == h[1..5] && hdr[4..6] == h[5..7] && hdr[6] == h[7];
  }

  /** Start marker and header of a frame take an idle receiver to ReadingPayload with the announced fields. */
  lemma HeadPhase(r: Receiver, len: uint32, crc: uint16, ts: seq<uint32>)
    requires r.state == WaitingForStart && len <= MAX_PAYLOAD_SIZE
    requires |ts| == 8 && AllInTime(ts[0], ts)
    ensures Run(r, FrameHeadOf(len, crc), ts) == RunResult(AfterHead(r, len, crc, ts[0]), [])
  {
    var hd := FrameHeadOf(len, crc);
    var hdr := hd[1..];
    var r1 := Started(r, ts[0]);
    var r2 := r1.(header := hdr[..6]);
    var r3 := AfterHead(r, len, crc, ts[0]);
    assert hd == [START_MARKER] + hdr;
    assert hdr[..6] + [hdr[6]] == hdr;
    assert ts == [ts[0]] + (ts[1..7] + [ts[7]]);
    StartStep(r, ts[0]);
    AllInTimeSlice(ts[0], ts, 1, 7);
    HeaderPhase(r1, hdr[..6], ts[1..7]);
    LastHeaderByte(r2, hdr, ts[7]);
    assert r2.(header := hdr) == r1.(header := hdr);
    HeaderFields(r, len, crc, ts[0]);
    RunThen(r1, hdr[..6], [hdr[6]], ts[1..7], [ts[7]], r2, r3);
    RunThen(r, [START_MARKER], hdr, [ts[0]], ts[1..7] + [ts[7]], r1, r3);
  }

  /** An accepted non-empty frame is delivered, counted, and the receiver reset. */
  lemma AcceptStep(r: Receiver, t: uint32)
    requires r.state == ReadingPayload && !r.escapeNext && !TimedOut(r, t)
    requires CompleteMessage(r).Accepted? && CompleteMessage(r).message != []
    ensures var s := r.stats;
      Step(r, END_MARKER, t) ==
        StepResult(Reset(r).(stats := s.(messagesReceived := s.messagesReceived + 1,
                                         bytesReceived := s.bytesReceived + |r.payload| + HEADER_SIZE + 2)),
                   Some(r.payload))
  {
  }

  /** A frame read back with its own length, CRC and type passes every check of processCompleteMessage. */
  lemma FrameAccepted(r: Receiver, p: seq<byte>, t0: uint32)
    requires |p| <= MAX_PAYLOAD_SIZE && 0 < |p| && NoControlBytes(p) && Balanced(p)
    ensures CompleteMessage(AfterHead(r, |p|, PayloadCrc(p), t0).(payload := p)) == Accepted(p)
  {
  }

  /** A well-formed non-empty payload closed by the end marker is delivered and counted. */
  lemma EndPhase(r: Receiver, p: seq<byte>, t0: uint32, t: uint32)
    requires |p| <= MAX_PAYLOAD_SIZE && 0 < |p| && NoControlBytes(p) && Balanced(p) && InTime(t0, t)
    ensures var r4 := AfterHead(r, |p|, PayloadCrc(p), t0).(payload := p);
      var s := r.stats;
      Run(r4, [END_MARKER], [t]) ==
        RunResult(Reset(r).(stats := s.(messagesReceived := s.messagesReceived + 1,
                                        bytesReceived := s.bytesReceived + |p| + HEADER_SIZE + 2)), [p])
  {
    var r4 := AfterHead(r, |p|, PayloadCrc(p), t0).(payload := p);
    FrameAccepted(r, p, t0);
    NoTimeoutInTime(r4, t);
    AcceptStep(r4, t);
    RunOne(r4, END_MARKER, t);
    var s := r.stats;
    var s2 := s.(messagesReceived := s.messagesReceived + 1, bytesReceived := s.bytesReceived + |p| + HEADER_SIZE + 2);
    assert Reset(r4).(stats := s2) == Reset(r).(stats := s2);
  }

  /** Head and escaped payload of a frame leave the receiver holding the payload, waiting for the end marker. */
  lemma BodyPhase(r: Receiver, p: seq<byte>, th: seq<uint32>, te: seq<uint32>)
    requires r.state == WaitingForStart && 0 < |p| <= MAX_PAYLOAD_SIZE
    requires |th| == 8 && |te| == |Escape(p)| && AllInTime(th[0], th) && AllInTime(th[0], te)
    ensures Run(r, FrameHeadOf(|p|, PayloadCrc(p)) + Escape(p), th + te) ==
            RunResult(AfterHead(r, |p|, PayloadCrc(p), th[0]).(payload := p), [])
  {
    var r3 := AfterHead(r, |p|, PayloadCrc(p), th[0]);
    HeadPhase(r, |p|, PayloadCrc(p), th);
    PayloadPhase(r3, p, te, |p|);
    assert [] + p == p;
    RunThen(r, FrameHeadOf(|p|, PayloadCrc(p)), Escape(p), th, te, r3, r3.(payload := p));
  }

  /** The frame of `p`, written out, decodes to `p`. */
  lemma DecodeFrame(r: Receiver, p: seq<byte>, times: seq<uint32>)
    requires r.state == WaitingForStart
    requires 0 < |p| <= MAX_PAYLOAD_SIZE && NoControlBytes(p) && Balanced(p)
    requires |times| == 9 + |Escape(p)| && AllInTime(times[0], times)
    ensures var f := FrameHeadOf(|p|, PayloadCrc(p)) + Escape(p) + [END_MARKER];
      Run(r, f, times) ==
        RunResult(Reset(r).(stats := r.stats.(messagesReceived := r.stats.messagesReceived + 1,
                                              bytesReceived := r.stats.bytesReceived + |p| + HEADER_SIZE + 2)),
                  [p])
  {
    var body := FrameHeadOf(|p|, PayloadCrc(p)) + Escape(p);
    var m := |body|;
    var th, te, tz := times[..8], times[8..m], times[m..];
    assert th + te == times[..m] && tz == [times[m]] && times[..m] + tz == times;
    AllInTimeSlice(times[0], times, 0, 8);
    AllInTimeSlice(times[0], times, 8, m);
    BodyPhase(r, p, th, te);
    EndPhase(r, p, times[0], times[m]);
    RunConcat(r, body, [END_MARKER], times[..m], tz);
  }

  /**
   * Decoding the encoding of a non-empty JSON-shaped payload from an idle
   * receiver yields exactly that payload, back in WaitingForStart, provided
   * every byte arrives before the frame times out.
   */
  lemma DecodeEncoded(r: Receiver, p: seq<byte>, times: seq<uint32>)
    requires r.state == WaitingForStart
    requires 0 < |p| <= MAX_PAYLOAD_SIZE && NoControlBytes(p) && Balanced(p)
    requires |times| == |EncodeFrame(p)| && times != [] && AllInTime(times[0], times)
    ensures Run(r, EncodeFrame(p), times).messages == [p]
    ensures Run(r, EncodeFrame(p), times).rx ==
      Reset(r).(stats := r.stats.(messagesReceived := r.stats.messagesReceived + 1,
                                  bytesReceived := r.stats.bytesReceived + |p| + HEADER_SIZE + 2))
  {
    var f := FrameHeadOf(|p|, PayloadCrc(p)) + Escape(p) + [END_MARKER];
    assert EncodeFrame(p) == f;
    DecodeFrame(r, p, times);
  }

  /** The empty payload is never delivered, even in a well-formed frame whose CRC and type check. */
  lemma EmptyPayloadNotDelivered(r: Receiver, now: uint32)
    requires r.state == ReadingPayload && !r.escapeNext && !TimedOut(r, now)
    requires r.expectedLength == 0 && r.payload == []
    ensures Step(r, END_MARKER, now).message == None
  {
  }
}
