/**
 * BinaryProtocolFramer: the object that owns the receive state machine and
 * the counters, and the encoders that write frames.  Every method is proved
 * against the specification functions of BinaryProtocol (`Step`, `Run`,
 * `EncodeFrame`, `CompleteMessage`).
 */
module BinaryFramer {
  import opened Wrappers
  import opened Bits
  import opened BinaryProtocol

  /** BinaryProtocolFramer::applyEscapeSequences. */
  method ApplyEscapeSequences(data: seq<byte>) returns (escaped: seq<byte>)
    ensures escaped == Escape(data)
  {
    escaped := [];
    var i := 0;
    while i < |data|
      invariant 0 <= i <= |data|
      invariant escaped == Escape(data[..i])
    {
      var b := data[i];
      if b == START_MARKER || b == END_MARKER || b == ESCAPE_MARKER {
        escaped := escaped + [ESCAPE_MARKER, Xor20(b)];
      } else {
        escaped := escaped + [b];
      }
      EscapeSnoc(data[..i], b);
      assert data[..i + 1] == data[..i] + [b];
      i := i + 1;
    }
    assert data[..|data|] == data;
  }

  /** The character loop of processCompleteMessage: no NUL and no control byte other than tab, LF and CR. */
  method CheckCharacters(p: seq<byte>) returns (ok: bool)
    ensures ok <==> NoControlBytes(p)
  {
    var i := 0;
    while i < |p|
      invariant 0 <= i <= |p|
      invariant forall k :: 0 <= k < i ==> AllowedByte(p[k])
    {
      var b := p[i];
      if b == 0 || (b < 32 && b != 9 && b != 10 && b != 13) {
        assert !AllowedByte(p[i]);
        return false;
      }
      i := i + 1;
    }
    return true;
  }

  /** The brace and bracket loop of processCompleteMessage, which skips quoted strings. */
  method CheckBalance(p: seq<byte>) returns (ok: bool)
    ensures ok <==> Balanced(p)
  {
    var braces, brackets, inString, escaped := 0, 0, false, false;
    var i := 0;
    while i < |p|
      invariant 0 <= i <= |p|
      invariant Scan(braces, brackets, inString, escaped) == ScanPrefix(p, i)
    {
      var c := p[i];
      if !inString {
        if c == '{' as int {
          braces := braces + 1;
        } else if c == '}' as int {
          braces := braces - 1;
        } else if c == '[' as int {
          brackets := brackets + 1;
        } else if c == ']' as int {
          brackets := brackets - 1;
        } else if c == '"' as int {
          inString := true;
        }
      } else {
        if escaped {
          escaped := false;
        } else if c == '\\' as int {
          escaped := true;
        } else if c == '"' as int {
          inString := false;
        }
      }
      i := i + 1;
    }
    ok := braces == 0 && brackets == 0 && !inString;
  }

  /**
   * The `writeByteFunc` callback of transmitMessageDirect: its results on
   * successive calls are fixed by the index of its first failure, since the
   * transmission stops there.  `sent` is what reached the wire so far.
   */
  method WriteByte(sent: seq<byte>, b: byte, firstFailure: nat) returns (ok: bool, sent': seq<byte>)
    ensures ok <==> |sent| < firstFailure
    ensures sent' == if ok then sent + [b] else sent
  {
    ok := |sent| < firstFailure;
    sent' := if ok then sent + [b] else sent;
  }

  class Framer {
    var state: ReceiveState
    var header: seq<byte>
    var payload: seq<byte>
    var expectedLength: uint32
    var expectedCrc: uint16
    var messageType: byte
    var startTime: uint32
    var escapeNext: bool
    var stats: Statistics

    /** The fields as a value of the specification's receiver. */
    function Model(): Receiver
      reads this
    {
      Receiver(state, header, payload, expectedLength, expectedCrc, messageType, startTime, escapeNext, stats)
    }

    constructor()
      ensures Model() == Initial()
    {
      state := WaitingForStart;
      header := [];
      payload := [];
      expectedLength := 0;
      expectedCrc := 0;
      messageType := 0;
      startTime := 0;
      escapeNext := false;
      stats := ZeroStatistics;
    }

    method ResetStateMachine()
      modifies this
      ensures Model() == Reset(old(Model()))
    {
      state := WaitingForStart;
      header := [];
      payload := [];
      escapeNext := false;
      expectedLength := 0;
      expectedCrc := 0;
      messageType := 0;
      startTime := 0;
    }

    method ResetStatistics()
      modifies this
      ensures Model() == old(Model()).(stats := ZeroStatistics)
    {
      stats := ZeroStatistics;
    }

    /** processHeader: reads length, CRC and type; an oversized length counts a buffer overflow. */
    method ProcessHeader() returns (ok: bool)
      modifies this
      ensures |old(header)| < HEADER_SIZE ==> !ok && Model() == old(Model())
      ensures |old(header)| >= HEADER_SIZE ==>
        var len := BytesToUInt32LE(old(header)[..4]);
        (ok <==> len <= MAX_PAYLOAD_SIZE)
        && Model() == old(Model()).(expectedLength := len, expectedCrc := BytesToUInt16LE(old(header)[4..6]),
                                    messageType := old(header)[6],
                                    stats := if ok then old(stats)
                                             else old(stats).(bufferOverflowErrors := old(stats).bufferOverflowErrors + 1))
    {
      if |header| < HEADER_SIZE {
        return false;
      }
      expectedLength := BytesToUInt32LE(header[..4]);
      expectedCrc := BytesToUInt16LE(header[4..6]);
      messageType := header[6];
      if expectedLength > MAX_PAYLOAD_SIZE {
        stats := stats.(bufferOverflowErrors := stats.bufferOverflowErrors + 1);
        return false;
      }
      return true;
    }

    method ProcessPayloadByte(b: byte)
      modifies this
      ensures Model() == PayloadByte(old(Model()), b)
    {
      if escapeNext {
        payload := payload + [Xor20(b)];
        escapeNext := false;
      } else if b == ESCAPE_MARKER {
        escapeNext := true;
        return;
      } else {
        payload := payload + [b];
      }
      if |payload| > expectedLength {
        stats := stats.(bufferOverflowErrors := stats.bufferOverflowErrors + 1);
        ResetStateMachine();
      }
    }

    /**
     * processCompleteMessage: the payload if every check passes, else the
     * empty string, with the rejection counted.
     */
    method ProcessCompleteMessage() returns (m: seq<byte>)
      modifies this
      ensures var c := CompleteMessage(old(Model()));
        m == (if c.Accepted? then c.message else [])
        && Model() == (if c.Rejected? then old(Model()).(stats := CountRejection(old(stats), c.reason)) else old(Model()))
    {
      m := [];
      if escapeNext {
        stats := stats.(framingErrors := stats.framingErrors + 1);
        return;
      }
      if |payload| != expectedLength {
        stats := stats.(framingErrors := stats.framingErrors + 1);
        return;
      }
      if expectedLength == 0 {
        var crc0 := Crc16Calculate([]);
        if crc0 != expectedCrc {
          stats := stats.(crcErrors := stats.crcErrors + 1);
          return;
        }
        if messageType != JSON_MESSAGE_TYPE {
          stats := stats.(framingErrors := stats.framingErrors + 1);
          return;
        }
        return;
      }
      var crc := Crc16Calculate(payload);
      if crc != expectedCrc {
        stats := stats.(crcErrors := stats.crcErrors + 1);
        return;
      }
      if messageType != JSON_MESSAGE_TYPE {
        stats := stats.(framingErrors := stats.framingErrors + 1);
        return;
      }
      var allowed := CheckCharacters(payload);
      if !allowed {
        stats := stats.(framingErrors := stats.framingErrors + 1);
        return;
      }
      var balanced := CheckBalance(payload);
      if !balanced {
        stats := stats.(framingErrors := stats.framingErrors + 1);
        return;
      }
      m := payload;
    }

    /** isTimeout at clock reading `now`, with the unsigned wrap-around of the subtraction. */
    method IsTimeout(now: uint32) returns (t: bool)
      ensures t <==> TimedOut(Model(), now)
    {
      t := (now - startTime) % TWO32 > MESSAGE_TIMEOUT_MS;
    }

    /** One iteration of the loop of processIncomingBytes, with the clock reading `now`. */
    method HandleByte(b: byte, now: uint32) returns (msg: Option<seq<byte>>)
      modifies this
      ensures StepResult(Model(), msg) == Step(old(Model()), b, now)
    {
      if state != WaitingForStart {
        var late := IsTimeout(now);
        if late {
          stats := stats.(timeoutErrors := stats.timeoutErrors + 1);
          ResetStateMachine();
        }
      }
      assert Model() == TimeoutCheck(old(Model()), now);
      msg := DispatchByte(b, now);
    }

    /** The switch on the receive state inside the byte loop. */
    method DispatchByte(b: byte, now: uint32) returns (msg: Option<seq<byte>>)
      modifies this
      ensures StepResult(Model(), msg) == Dispatch(old(Model()), b, now)
    {
      msg := None;
      match state
      case WaitingForStart =>
        if b == START_MARKER {
          state := ReadingHeader;
          header := [];
          payload := [];
          startTime := now;
          escapeNext := false;
        }
      case ReadingHeader =>
        header := header + [b];
        if |header| >= HEADER_SIZE {
          var ok := ProcessHeader();
          if ok {
            state := ReadingPayload;
          } else {
            stats := stats.(framingErrors := stats.framingErrors + 1);
            ResetStateMachine();
          }
        }
      case ReadingPayload =>
        if b == END_MARKER && !escapeNext {
          msg := HandleEndMarker();
        } else {
          ProcessPayloadByte(b);
        }
    }

    /** The end-marker branch: processCompleteMessage, the counters for a delivered message, and the reset. */
    method HandleEndMarker() returns (msg: Option<seq<byte>>)
      modifies this
      ensures StepResult(Model(), msg) == EndOfFrame(old(Model()))
    {
      msg := None;
      var decoded := ProcessCompleteMessage();
      if decoded != [] {
        msg := Some(decoded);
        stats := stats.(messagesReceived := stats.messagesReceived + 1,
                        bytesReceived := stats.bytesReceived + |payload| + HEADER_SIZE + 2);
      }
      ResetStateMachine();
    }

    /**
     * processIncomingBytes: `times[i]` is the clock reading while byte i is
     * handled; the result and the new state are those of `Run`.
     */
    method ProcessIncomingBytes(data: seq<byte>, times: seq<uint32>) returns (messages: seq<seq<byte>>)
      requires |times| == |data|
      modifies this
      ensures RunResult(Model(), messages) == Run(old(Model()), data, times)
    {
      messages := [];
      var i := 0;
      while i < |data|
        invariant 0 <= i <= |data|
        invariant RunResult(Model(), messages) == Run(old(Model()), data[..i], times[..i])
      {
        ghost var prev := messages;
        var msg := HandleByte(data[i], times[i]);
        messages := messages + OptionToSeq(msg);
        assert data[..i + 1][..i] == data[..i] && times[..i + 1][..i] == times[..i];
        i := i + 1;
      }
      assert data[..|data|] == data && times[..|times|] == times;
    }

    /** encodeMessage: the frame for `p`, or empty; a non-empty frame is counted as sent. */
    method EncodeMessage(p: seq<byte>) returns (frame: seq<byte>)
      modifies this
      ensures frame == EncodeFrame(p)
      ensures Model() == old(Model()).(stats := if frame == [] then old(stats)
                                                else old(stats).(messagesSent := old(stats).messagesSent + 1,
                                                                 bytesTransmitted := old(stats).bytesTransmitted + |frame|))
    {
      frame := WriteFrame(p);
      if frame != [] {
        stats := stats.(messagesSent := stats.messagesSent + 1, bytesTransmitted := stats.bytesTransmitted + |frame|);
      }
    }

    /**
     * encodeMessage into a caller buffer: fails, with length 0, when the
     * frame is empty or does not fit; the statistics of encodeMessage are
     * updated either way.
     */
    method EncodeToBuffer(p: seq<byte>, out: array<byte>) returns (ok: bool, frameLength: nat)
      modifies this, out
      ensures var f := EncodeFrame(p);
        (ok <==> f != [] && |f| <= out.Length)
        && (ok ==> frameLength == |f| && out[..frameLength] == f && out[frameLength..] == old(out[frameLength..]))
        && (!ok ==> frameLength == 0 && out[..] == old(out[..]))
      ensures var f := EncodeFrame(p);
        Model() == old(Model()).(stats := if f == [] then old(stats)
                                          else old(stats).(messagesSent := old(stats).messagesSent + 1,
                                                           bytesTransmitted := old(stats).bytesTransmitted + |f|))
    {
      var frame := EncodeMessage(p);
      if frame == [] || |frame| > out.Length {
        return false, 0;
      }
      var i := 0;
      while i < |frame|
        invariant 0 <= i <= |frame|
        invariant out[..i] == frame[..i]
        invariant out[i..] == old(out[i..])
        invariant Model() == old(Model()).(stats := stats)
        invariant stats == old(stats).(messagesSent := old(stats).messagesSent + 1,
                                       bytesTransmitted := old(stats).bytesTransmitted + |frame|)
      {
        out[i] := frame[i];
        assert out[..i + 1] == out[..i] + [out[i]];
        assert old(out[i..])[1..] == old(out[i + 1..]);
        i := i + 1;
      }
      return true, |frame|;
    }

    /**
     * transmitMessageDirect: writes the frame of `p` byte by byte through a
     * callback whose first failure is at call `firstFailure`; stops at the
     * first failed write and counts the message as sent only when every
     * byte went out.  `sent` is what the callback accepted.
     */
    method TransmitMessageDirect(p: seq<byte>, firstFailure: nat) returns (ok: bool, sent: seq<byte>)
      modifies this
      ensures var f := EncodeFrame(p);
        (f == [] ==> !ok && sent == [])
        && (f != [] ==> (ok <==> |f| <= firstFailure) && sent == SentPrefix(f, firstFailure))
      ensures Model() == old(Model()).(stats := if ok then old(stats).(messagesSent := old(stats).messagesSent + 1)
                                                else old(stats))
    {
      ok, sent := SendFrame(p, firstFailure);
      if ok {
        stats := stats.(messagesSent := stats.messagesSent + 1);
      }
    }
  }

  /**
   * The frame-building part of encodeMessage: the length check, the header
   * fields, the escaped payload and the end marker.  encodeMessage escapes
   * with a loop of its own that does byte for byte what
   * applyEscapeSequences does, so it is modelled by a call to it.
   */
  method WriteFrame(p: seq<byte>) returns (frame: seq<byte>)
    ensures frame == EncodeFrame(p)
  {
    if |p| == 0 || |p| > MAX_PAYLOAD_SIZE {
      return [];
    }
    var crc := Crc16Calculate(p);
    var head := FrameHeadOf(|p|, crc);
    var body := ApplyEscapeSequences(p);
    frame := head + body + [END_MARKER];
    assert EncodeFrame(p) == frame;
  }

  /** The first `n` bytes of `s`, or all of it: what a callback failing at call `n` lets through. */
  function SentPrefix(s: seq<byte>, n: nat): (r: seq<byte>)
    ensures |r| == if |s| <= n then |s| else n
    ensures |s| <= n ==> r == s
  {
    if |s| <= n then s else s[..n]
  }

  lemma EmptyConcat(s: seq<byte>)
    ensures [] + s == s
  {
  }

  /** Once the callback has failed, later bytes make no difference. */
  lemma SentPrefixExtend(x: seq<byte>, y: seq<byte>, n: nat)
    requires n < |x|
    ensures SentPrefix(x + y, n) == SentPrefix(x, n)
  {
    assert (x + y)[..n] == x[..n];
  }

  /**
   * The writing part of transmitMessageDirect: the length check, then
   * header, escaped payload and end marker through the callback, stopping
   * at its first failure.
   */
  method SendFrame(p: seq<byte>, firstFailure: nat) returns (ok: bool, sent: seq<byte>)
    ensures var f := EncodeFrame(p);
      (f == [] ==> !ok && sent == [])
      && (f != [] ==> (ok <==> |f| <= firstFailure) && sent == SentPrefix(f, firstFailure))
  {
    if |p| == 0 || |p| > MAX_PAYLOAD_SIZE {
      return false, [];
    }
    var crc := Crc16Calculate(p);
    var head := FrameHeadOf(|p|, crc);
    ghost var body := head + Escape(p);
    ghost var f := body + [END_MARKER];
    assert EncodeFrame(p) == f;
    var w;
    w, sent := WriteAll([], head, firstFailure);
    EmptyConcat(head);
    if !w {
      SentPrefixExtend(head, Escape(p), firstFailure);
      SentPrefixExtend(body, [END_MARKER], firstFailure);
      return false, sent;
    }
    w, sent := WriteEscaped(sent, p, firstFailure);
    if !w {
      SentPrefixExtend(body, [END_MARKER], firstFailure);
      return false, sent;
    }
    ok, sent := WriteAll(sent, [END_MARKER], firstFailure);
  }

  /** Writes `bytes` through the callback, stopping at its first failure. */
  method WriteAll(sent: seq<byte>, bytes: seq<byte>, firstFailure: nat) returns (ok: bool, sent': seq<byte>)
    requires |sent| <= firstFailure
    ensures ok <==> |sent| + |bytes| <= firstFailure
    ensures sent' == SentPrefix(sent + bytes, firstFailure)
  {
    sent' := sent;
    var k := 0;
    while k < |bytes|
      invariant 0 <= k <= |bytes|
      invariant sent' == sent + bytes[..k] && |sent'| <= firstFailure
    {
      var w;
      w, sent' := WriteByte(sent', bytes[k], firstFailure);
      if !w {
        assert (sent + bytes)[..firstFailure] == sent + bytes[..k];
        return false, sent';
      }
      assert bytes[..k + 1] == bytes[..k] + [bytes[k]];
      k := k + 1;
    }
    assert bytes[..|bytes|] == bytes;
    return true, sent';
  }

  /** The payload loop of transmitMessageDirect: each byte escaped and written, stopping at the first failure. */
  method WriteEscaped(sent: seq<byte>, p: seq<byte>, firstFailure: nat) returns (ok: bool, sent': seq<byte>)
    requires |sent| <= firstFailure
    ensures ok <==> |sent| + |Escape(p)| <= firstFailure
    ensures sent' == SentPrefix(sent + Escape(p), firstFailure)
  {
    sent' := sent;
    var i := 0;
    while i < |p|
      invariant 0 <= i <= |p|
      invariant sent' == sent + Escape(p[..i]) && |sent'| <= firstFailure
    {
      var b := p[i];
      ghost var before := sent';
      var w;
      w, sent' := WritePayloadByte(sent', b, firstFailure);
      EscapeSnoc(p[..i], b);
      assert p[..i + 1] == p[..i] + [b];
      assert before + EscapeByte(b) == sent + Escape(p[..i + 1]);
      if !w {
        FrameSplit(p, i);
        SentPrefixAssoc(sent, Escape(p[..i + 1]), Escape(p[i + 1..]), firstFailure);
        return false, sent';
      }
      i := i + 1;
    }
    assert p[..|p|] == p;
    return true, sent';
  }

  /** One payload byte of transmitMessageDirect: the escape marker and the flipped byte, or the byte itself. */
  method WritePayloadByte(sent: seq<byte>, b: byte, firstFailure: nat) returns (ok: bool, sent': seq<byte>)
    requires |sent| <= firstFailure
    ensures ok <==> |sent| + |EscapeByte(b)| <= firstFailure
    ensures sent' == SentPrefix(sent + EscapeByte(b), firstFailure)
  {
    if b == START_MARKER || b == END_MARKER || b == ESCAPE_MARKER {
      var w;
      w, sent' := WriteByte(sent, ESCAPE_MARKER, firstFailure);
      if !w {
        return false, sent';
      }
      w, sent' := WriteByte(sent', Xor20(b), firstFailure);
      if !w {
        return false, sent';
      }
      return true, sent';
    } else {
      ok, sent' := WriteByte(sent, b, firstFailure);
      assert sent + [b] == sent + EscapeByte(b);
    }
  }

  /** A failure inside `x + y` hides whatever follows it. */
  lemma SentPrefixAssoc(x: seq<byte>, y: seq<byte>, z: seq<byte>, n: nat)
    requires n < |x + y|
    ensures SentPrefix(x + (y + z), n) == SentPrefix(x + y, n)
  {
    assert x + (y + z) == (x + y) + z;
    SentPrefixExtend(x + y, z, n);
  }

  /** The frame of `p` split after payload byte i. */
  lemma FrameSplit(p: seq<byte>, i: nat)
    requires i < |p|
    ensures Escape(p) == Escape(p[..i + 1]) + Escape(p[i + 1..])
  {
    EscapeConcat(p[..i + 1], p[i + 1..]);
    assert p[..i + 1] + p[i + 1..] == p;
  }
}
