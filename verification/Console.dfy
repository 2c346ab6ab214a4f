/** The client's read side: responses parsed from replayed bytes, queued channel events, the
    receive buffer and the socket, with a rollback when a bounded read times out. */
module Console {
  import opened Basics
  import opened Utf8
  import opened Framing
  import opened Tokens
  import opened Definitions
  import opened Responses
  import opened Reader
  import opened ReadState
  import opened Attended
  import DefinitionCodec

  const RX_BUFFER_SIZE: nat := 2048

  datatype ReadOutcome =
    | Got(n: nat)
    | LineQuiet
    | LineClosed
    | LineBroken

  /** What a reader depends on and does not control: one session's line to the peer, the other
      clones' announcement of a reconnect, and the clock. How the bytes are cut into chunks, when
      the line is quiet and when it fails are not its choice; that a quiet line does not stay
      quiet for ever is what makes an unbounded read return. `troubles` records, as they happen,
      failures of the line, announcements that were seen and deadlines that had passed. */
  class Outside {
    var incoming: seq<Byte>
    var quiets: nat
    ghost var troubles: seq<Trouble>

    constructor (incoming: seq<Byte>, quiets: nat)
      ensures this.incoming == incoming && this.quiets == quiets && troubles == []
    {
      this.incoming, this.quiets, troubles := incoming, quiets, [];
    }

    method Read(buf: array<Byte>) returns (r: ReadOutcome)
      requires buf.Length > 0
      modifies this, buf
      ensures r.Got? ==> 0 < r.n <= buf.Length && old(incoming) == buf[..r.n] + incoming
      ensures r.LineQuiet? ==> quiets < old(quiets)
      ensures !r.Got? ==> incoming == old(incoming)
      ensures r.LineClosed? ==> incoming == []
      ensures troubles == if r.LineBroken? then old(troubles) + [LineFault] else old(troubles)
    {
      if quiets > 0 {
        if * {
          quiets := quiets - 1;
          return LineQuiet;
        }
      }
      if incoming == [] {
        return LineClosed;
      }
      if * {
        troubles := troubles + [LineFault];
        return LineBroken;
      }
      var n: nat :| 0 < n <= buf.Length && n <= |incoming|;
      forall i | 0 <= i < n {
        buf[i] := incoming[i];
      }
      assert buf[..n] == incoming[..n];
      incoming := incoming[n..];
      return Got(n);
    }

    /** Write to the peer. */
    method Write() returns (ok: bool)
      modifies this`troubles
      ensures troubles == if ok then old(troubles) else old(troubles) + [LineFault]
    {
      if * {
        return true;
      }
      troubles := troubles + [LineFault];
      return false;
    }

    /** Whether a reconnect on another clone is announced now. */
    method Announced() returns (seen: bool)
      modifies this`troubles
      ensures troubles == if seen then old(troubles) + [ReconnectSeen] else old(troubles)
    {
      if * {
        return false;
      }
      troubles := troubles + [ReconnectSeen];
      return true;
    }

    /** Whether the deadline of the operation has passed now. */
    method DeadlinePassed() returns (passed: bool)
      modifies this`troubles
      ensures troubles == if passed then old(troubles) + [DeadlineSeen] else old(troubles)
    {
      if * {
        return false;
      }
      troubles := troubles + [DeadlineSeen];
      return true;
    }
  }

  class Console {
    const outside: Outside
    const channels: ChannelDecoder
    const rxBuf: array<Byte>
    var rxTail: nat
    var rxSize: nat
    var rxEvents: seq<ChannelEvent>
    var replay: seq<Byte>
    var pending: seq<WingResponse>
    var readCapture: seq<Byte>
    var currentNodeId: Int32
    var opDeadline: bool
    var capture: Option<seq<Byte>>
    var streamTainted: bool

    ghost predicate Valid()
      reads this`rxTail, this`rxSize, rxBuf, channels
    {
      && rxBuf.Length == RX_BUFFER_SIZE
      && rxTail + rxSize <= rxBuf.Length
      && channels.State().channel.Some?
    }

    ghost function Unread(): seq<Byte>
      requires Valid()
      reads this`rxTail, this`rxSize, rxBuf, channels
    {
      rxBuf[rxTail..rxTail + rxSize]
    }

    /** The parameter bytes still to come: replayed ones, queued ones, then what the channel
        decoder makes of the unread buffer and of everything the peer has still to send. */
    ghost function Stream(): seq<Byte>
      requires Valid()
      reads this`replay, this`rxEvents, this`rxTail, this`rxSize, rxBuf, channels, outside`incoming
    {
      replay + (PayloadOf(1, rxEvents) + ParameterBytes(channels.State(), Unread() + outside.incoming))
    }

    /** The state as a reader of responses sees it. */
    ghost function Look(): View
      requires Valid()
      reads this, rxBuf, channels, outside
    {
      View(Future(pending, currentNodeId, Stream()), readCapture, capture, opDeadline, streamTainted,
           outside.troubles)
    }

    ghost function Ahead(): Future
      requires Valid()
      reads this, rxBuf, channels, outside
    {
      Look().future
    }

    /** A console on a fresh session, with channel 1 selected. */
    constructor (incoming: seq<Byte>, quiets: nat)
      ensures Valid() && fresh(outside) && fresh(channels) && fresh(rxBuf)
      ensures Ahead() == Future([], 0, ParameterBytes(OnChannel(1), incoming))
      ensures capture == None && !streamTainted && !opDeadline && outside.troubles == []
    {
      outside := new Outside(incoming, quiets);
      var decoder := ChannelDecoder.WithChannel(1);
      channels := decoder.value;
      rxBuf := new Byte[RX_BUFFER_SIZE](_ => 0);
      rxTail, rxSize, rxEvents, replay, pending, readCapture := 0, 0, [], [], [], [];
      currentNodeId, opDeadline, capture, streamTainted := 0, false, None, false;
      new;
      assert Unread() + incoming == incoming;
    }

    // ---------- one byte ----------

    /** The next queued byte of channel 1; events of other channels are dropped. */
    method NextQueued() returns (r: Option<Byte>)
      requires Valid()
      modifies this`rxEvents
      ensures match r
              case Some(b) => PayloadOf(1, old(rxEvents)) == [b] + PayloadOf(1, rxEvents)
              case None => rxEvents == [] && PayloadOf(1, old(rxEvents)) == []
    {
      while rxEvents != []
        invariant PayloadOf(1, rxEvents) == PayloadOf(1, old(rxEvents))
        decreases |rxEvents|
      {
        var event := rxEvents[0];
        rxEvents := rxEvents[1..];
        if event.Data? && event.channel == 1 {
          return Some(event.value);
        }
      }
      return None;
    }

    /** Read a chunk into the empty receive buffer. `Ok(false)` means the line was quiet. */
    method Refill() returns (r: Result<bool>)
      requires Valid() && rxSize == 0
      modifies this`rxTail, this`rxSize, rxBuf, outside
      ensures Valid()
      ensures Unread() + outside.incoming == old(outside.incoming)
      ensures r == Ok(true) ==> rxSize > 0
      ensures r == Ok(false) ==> rxSize == 0 && outside.quiets < old(outside.quiets)
                                 && outside.incoming == old(outside.incoming)
      ensures r.Err? && r.error == Timeout ==> opDeadline
      ensures r.Err? ==> r.error != InvalidData
      ensures r == Err(ConnectionError) ==> Unread() + outside.incoming == []
      ensures Blames(old(outside.troubles), outside.troubles, ErrorOf(r))
    {
      hide Blames;
      BlamesOne(outside.troubles);
      var kept := outside.Write();
      if !kept {
        return Err(Io);
      }
      if opDeadline {
        var passed := outside.DeadlinePassed();
        if passed {
          return Err(Timeout);
        }
      }
      var got := outside.Read(rxBuf);
      match got
      case Got(n) =>
        rxSize := n;
        rxTail := 0;
        assert rxBuf[0..n] == rxBuf[..n];
        return Ok(true);
      case LineQuiet =>
        if opDeadline {
          var passed := outside.DeadlinePassed();
          if passed {
            return Err(Timeout);
          }
        }
        return Ok(false);
      case LineClosed =>
        return Err(ConnectionError);
      case LineBroken =>
        return Err(Io);
    }

    /** Read a chunk once everything received has been used up. */
    method FillBuffer() returns (r: Result<bool>)
      requires Valid() && rxSize == 0 && replay == [] && rxEvents == []
      modifies this`rxTail, this`rxSize, rxBuf, outside
      ensures Valid() && Stream() == old(Stream())
      ensures r == Ok(true) ==> rxSize > 0 && |outside.incoming| + rxSize == |old(outside.incoming)|
      ensures r == Ok(false) ==> rxSize == 0 && outside.quiets < old(outside.quiets)
                                 && outside.incoming == old(outside.incoming)
      ensures r == Err(Timeout) ==> opDeadline
      ensures r == Err(ConnectionError) ==> Stream() == []
      ensures r.Err? ==> r.error != InvalidData
      ensures Blames(old(outside.troubles), outside.troubles, ErrorOf(r))
    {
      hide ParameterBytes;
      NothingToDecode(channels.State());
      assert Unread() + outside.incoming == outside.incoming;
      r := Refill();
      assert |Unread() + outside.incoming| == |old(outside.incoming)|;
    }

    /** The next byte already queued for the parser. */
    method TakeQueued() returns (r: Option<Byte>)
      requires Valid()
      modifies this`replay, this`rxEvents
      ensures Valid()
      ensures r.Some? ==> old(Stream()) == [r.value] + Stream()
      ensures r.None? ==> Stream() == old(Stream()) && replay == [] && rxEvents == []
    {
      hide ParameterBytes, PayloadOf;
      if replay != [] {
        r := Some(replay[0]);
        replay := replay[1..];
        return;
      }
      EventsSplit([]);
      r := NextQueued();
    }

    /** One wire byte through the channel decoder; the second event it can yield is queued. */
    method TakeWireByte() returns (r: Option<Byte>)
      requires Valid() && rxSize > 0 && rxEvents == [] && replay == []
      modifies this`rxTail, this`rxSize, this`rxEvents, channels
      ensures Valid() && |Unread()| == |old(Unread())| - 1
      ensures old(Stream()) == (if r.Some? then [r.value] else []) + Stream()
    {
      hide PayloadOf, ParameterBytes, DeframeByte;
      ghost var before := Unread() + outside.incoming;
      var byte := TakeBuffered();
      ghost var rest := Unread() + outside.incoming;
      ParameterBytesStep(channels.State(), byte, rest);
      var decoded := channels.PushByte(byte);
      var events := decoded.value;
      EventsSplit(events);
      if |events| >= 2 {
        rxEvents := rxEvents + events[1..];
      }
      assert rxEvents == if events == [] then [] else events[1..];
      if events != [] && events[0].Data? && events[0].channel == 1 {
        return Some(events[0].value);
      }
      return None;
    }

    method TakeBuffered() returns (byte: Byte)
      requires Valid() && rxSize > 0
      modifies this`rxTail, this`rxSize
      ensures Valid() && rxSize == old(rxSize) - 1
      ensures old(Unread()) == [byte] + Unread()
      ensures old(Unread()) + outside.incoming == [byte] + (Unread() + outside.incoming)
    {
      byte := rxBuf[rxTail];
      rxTail := rxTail + 1;
      rxSize := rxSize - 1;
      assert old(Unread()) == [byte] + Unread();
    }

    lemma EventsSplit(events: seq<ChannelEvent>)
      ensures PayloadOf(1, []) == []
      ensures events == [] ==> PayloadOf(1, events) == []
      ensures events != [] ==>
                PayloadOf(1, events) ==
                (if events[0].Data? && events[0].channel == 1 then [events[0].value] else [])
                + PayloadOf(1, events[1..])
    {
    }

    /** One turn of the decoding loop: a byte, or nothing yet. */
    method DecodeTurn() returns (r: Result<Option<Byte>>)
      requires Valid()
      modifies this`replay, this`rxEvents, this`rxTail, this`rxSize
      modifies channels, rxBuf, outside
      ensures Valid()
      ensures r.Ok? && r.value.Some? ==> old(Stream()) == [r.value.value] + Stream()
      ensures r == Ok(None) ==>
                && Stream() == old(Stream())
                && |outside.incoming| + rxSize <= |old(outside.incoming)| + old(rxSize)
                && (|outside.incoming| + rxSize == |old(outside.incoming)| + old(rxSize) ==>
                      outside.quiets < old(outside.quiets))
      ensures r.Err? ==> Stream() == old(Stream()) && (r.error == Timeout ==> opDeadline)
      ensures r == Err(ConnectionError) ==> old(Stream()) == []
      ensures r.Err? ==> r.error != InvalidData
      ensures Blames(old(outside.troubles), outside.troubles, ErrorOf(r))
    {
      hide Stream;
      var queued := TakeQueued();
      if queued.Some? {
        return Ok(Some(queued.value));
      }
      if rxSize == 0 {
        var refilled := FillBuffer();
        if refilled.Err? {
          return Err(refilled.error);
        }
        if !refilled.value {
          return Ok(None);
        }
      }
      var value := TakeWireByte();
      return Ok(value);
    }

    lemma NothingToDecode(s: FrameState)
      requires s.channel.Some?
      ensures ParameterBytes(s, []) == []
    {
    }

    method DecodeNextInner() returns (r: Result<Byte>)
      requires Valid()
      modifies this`replay, this`rxEvents, this`rxTail, this`rxSize, this`readCapture
      modifies channels, rxBuf, outside
      ensures Valid()
      ensures r.Ok? ==> old(Stream()) == [r.value] + Stream()
                        && readCapture == old(readCapture) + [r.value]
      ensures r.Err? ==> readCapture == old(readCapture)
      ensures r == Err(Timeout) ==> Stream() == old(Stream()) && opDeadline
      ensures r.Err? ==> |Stream()| <= |old(Stream())|
      ensures r == Err(ConnectionError) ==> old(Stream()) == []
      ensures r == Err(InvalidData) ==> |readCapture| >= MAX_NATIVE_RESPONSE_BYTES
      ensures r.Ok? ==> |readCapture| <= MAX_NATIVE_RESPONSE_BYTES
      ensures Blames(old(outside.troubles), outside.troubles, ErrorOf(r))
    {
      hide Stream;
      while true
        invariant Valid() && Stream() == old(Stream()) && readCapture == old(readCapture)
        invariant outside.troubles == old(outside.troubles)
        decreases |outside.incoming| + rxSize, outside.quiets
      {
        var reconnecting := outside.Announced();
        if reconnecting {
          return Err(Reconnecting);
        }
        var next := DecodeTurn();
        if next.Err? {
          return Err(next.error);
        }
        if next.value.Some? {
          if |readCapture| >= MAX_NATIVE_RESPONSE_BYTES {
            return Err(InvalidData);
          }
          readCapture := readCapture + [next.value.value];
          assert Stream() == Stream();
          return Ok(next.value.value);
        }
      }
    }

    // ---------- one token ----------

    /** The single point every emitted byte passes through; an active capture is fed here. */
    method DecodeNext() returns (r: Result<Byte>)
      requires Valid()
      modifies this, channels, rxBuf, outside
      ensures Valid()
      ensures match r
              case Ok(b) => Took(old(Look()), Look(), [b])
              case Err(e) => Failed(old(Look()), Look(), e, 1)
    {
      hide Stream;
      r := DecodeNextInner();
      if r.Ok? && capture.Some? {
        if |capture.value| >= MAX_NATIVE_RESPONSE_BYTES {
          return Err(InvalidData);
        }
        capture := Some(capture.value + [r.value]);
      }
    }

    /** The next `n` bytes. If the read is cut short, what was read stays in `readCapture`. */
    method ReadBytes(n: nat) returns (r: Result<seq<Byte>>)
      requires Valid()
      modifies this, channels, rxBuf, outside
      ensures Valid()
      ensures match r
              case Ok(bytes) => |bytes| == n && Took(old(Look()), Look(), bytes)
              case Err(e) => Failed(old(Look()), Look(), e, n)
    {
      hide Look, Valid;
      var bytes: seq<Byte> := [];
      TookNothing(Look());
      for k := 0 to n
        invariant Valid() && |bytes| == k && Took(old(Look()), Look(), bytes)
      {
        ghost var mid := Look();
        var next := DecodeNext();
        if next.Err? {
          FailedAfter(old(Look()), mid, Look(), bytes, next.error, 1, n);
          return Err(next.error);
        }
        TookTwice(old(Look()), mid, Look(), bytes, [next.value]);
        bytes := bytes + [next.value];
      }
      return Ok(bytes);
    }

    /** The rest of the token that `cmd`, just read, starts. */
    method ReadToken(cmd: Byte) returns (r: Result<seq<Byte>>)
      requires Valid() && cmd < ESCAPE
      modifies this, channels, rxBuf, outside
      ensures Valid()
      ensures match r
              case Ok(operand) =>
                |operand| + 1 == TokenSize([cmd] + operand) && Took(old(Look()), Look(), operand)
              case Err(e) => Cut(old(Look()), Look(), e) && Refused([cmd], old(Look()), Look(), e)
    {
      hide Look, Valid, Refused;
      var operand := 0;
      if 0x80 <= cmd <= 0xbf {
        operand := cmd as int - 0x80 + 1;
      } else if 0xc0 <= cmd <= 0xcf {
        operand := cmd as int - 0xc0 + 1;
      } else if cmd == 0xd1 {
        r := ReadLongString();
        return;
      } else if cmd == 0xd2 || cmd == 0xd3 {
        operand := 2;
      } else if 0xd4 <= cmd <= 0xd7 {
        operand := 4;
      } else if cmd == 0xd9 {
        operand := 1;
      }
      r := ReadBytes(operand);
      if r.Err? {
        OperandCut(cmd, old(Look()), Look(), r.error, operand);
      }
    }

    /** 0xd1: a length byte, one less than the length, then the text. */
    method ReadLongString() returns (r: Result<seq<Byte>>)
      requires Valid()
      modifies this, channels, rxBuf, outside
      ensures Valid()
      ensures match r
              case Ok(operand) =>
                |operand| + 1 == TokenSize([0xd1] + operand) && Took(old(Look()), Look(), operand)
              case Err(e) => Cut(old(Look()), Look(), e) && Refused([0xd1], old(Look()), Look(), e)
    {
      hide Look, Valid, Refused;
      var len := DecodeNext();
      if len.Err? {
        OperandCut(0xd1, old(Look()), Look(), len.error, 1);
        return Err(len.error);
      }
      ghost var mid := Look();
      var text := ReadBytes(len.value as int + 1);
      if text.Err? {
        FailedAfter(old(Look()), mid, Look(), [len.value], text.error, len.value as int + 1, len.value as int + 2);
        OperandCut(0xd1, old(Look()), Look(), text.error, len.value as int + 2);
        return Err(text.error);
      }
      TookTwice(old(Look()), mid, Look(), [len.value], text.value);
      return Ok([len.value] + text.value);
    }

    // ---------- one response ----------

    /** The value a value token carries. */
    method InterpretValue(t: seq<Byte>) returns (r: Result<Data>)
      requires |t| > 0 && |t| == TokenSize(t)
      requires t[0] <= 0x3f || 0x80 <= t[0] <= 0xbf || (0xd0 <= t[0] <= 0xd6 && t[0] != 0xd2)
      ensures IsValue(Tokenize(t))
      ensures match ValueOf(Tokenize(t))
              case None => r == Err(InvalidData)
              case Some(v) => r == Ok(DataOf(v))
    {
      var cmd := t[0];
      if cmd <= 0x3f {
        return Ok(IntData(cmd as int));
      } else if cmd <= 0xbf {
        return if ValidUtf8(t[1..]) then Ok(StringData(t[1..])) else Err(InvalidData);
      } else if cmd == 0xd0 {
        return Ok(StringData([]));
      } else if cmd == 0xd1 {
        return if ValidUtf8(t[2..]) then Ok(StringData(t[2..])) else Err(InvalidData);
      } else if cmd == 0xd3 {
        return Ok(IntData(Signed16(FromBe16(t[1..]))));
      } else if cmd == 0xd4 {
        return Ok(IntData(FromBeI32(t[1..])));
      } else {
        return Ok(FloatData(FromBe32(t[1..])));
      }
    }

    /** A response from a whole token, or the node it leaves selected. */
    method Interpret(t: seq<Byte>) returns (r: Result<Option<WingResponse>>)
      requires |t| > 0 && |t| == TokenSize(t) && t[0] < ESCAPE
      modifies this`currentNodeId
      ensures match EffectOf(old(currentNodeId), Tokenize(t))
              case Reject => r == Err(InvalidData) && currentNodeId == old(currentNodeId)
              case Respond(response) => r == Ok(Some(response)) && currentNodeId == old(currentNodeId)
              case Continue(next) => r == Ok(None) && currentNodeId == next
    {
      var byte := t[0];
      if byte <= 0x3f || 0x80 <= byte <= 0xbf || (0xd0 <= byte <= 0xd6 && byte != 0xd2) {
        var data := InterpretValue(t);
        return if data.Err? then Err(InvalidData) else Ok(Some(Value(currentNodeId, data.value)));
      }
      NotAValue(t);
      if byte == 0xde {
        return Ok(Some(End));
      }
      if byte == 0xd7 {
        currentNodeId := FromBeI32(t[1..]);
      }
      return Ok(None);
    }

    /** The length in front of a definition: 16 bits, or 0 and then 32 bits. */
    method ReadDefinitionLength() returns (r: Result<nat>, ghost header: seq<Byte>)
      requires Valid()
      modifies this, channels, rxBuf, outside
      ensures Valid()
      ensures match r
              case Ok(len) =>
                IsHeader(header) && len == HeaderLength(header) && Took(old(Look()), Look(), header)
              case Err(e) => Cut(old(Look()), Look(), e) && Refused([ESCAPE], old(Look()), Look(), e)
    {
      hide Look, Valid, Refused;
      header := [];
      var short := ReadBytes(2);
      if short.Err? {
        HeaderCut(old(Look()), Look(), short.error, 2);
        return Err(short.error), [];
      }
      header := short.value;
      if FromBe16(short.value) != 0 {
        return Ok(FromBe16(short.value)), header;
      }
      ghost var mid := Look();
      var long := ReadBytes(4);
      if long.Err? {
        FailedAfter(old(Look()), mid, Look(), header, long.error, 4, 6);
        HeaderCut(old(Look()), Look(), long.error, 6);
        return Err(long.error), header;
      }
      TookTwice(old(Look()), mid, Look(), short.value, long.value);
      header := header + long.value;
      assert header[..2] == short.value && header[2..] == long.value;
      return Ok(FromBe32(long.value)), header;
    }

    /** The definition behind a 0xdf token that has just been read. */
    method ReadDefinition() returns (r: Result<WingResponse>, ghost taken: seq<Byte>)
      requires Valid()
      modifies this, channels, rxBuf, outside
      ensures Valid()
      ensures match r
              case Ok(response) =>
                var a := old(Look());
                Took(a, Look(), taken)
                && ParseResponse(a.future.node, [ESCAPE] + a.future.stream)
                   == Done(response, a.future.node, 1 + |taken|)
              case Err(e) => Cut(old(Look()), Look(), e) && Refused([ESCAPE], old(Look()), Look(), e)
    {
      hide Look, Valid, ParseResponse, IsHeader, HeaderLength;
      ghost var start := Look();
      var defLen;
      defLen, taken := ReadDefinitionLength();
      if defLen.Err? {
        return Err(defLen.error), [];
      }
      ghost var header, mid := taken, Look();
      DefinitionBody(start.future.node, header, mid.future.stream);
      if defLen.value > MAX_DEFINITION_BYTES {
        TookFails(start, mid, header);
        return Err(InvalidData), [];
      }
      var raw := ReadBytes(defLen.value);
      if raw.Err? {
        BodyCut(header, mid, Look(), raw.error, defLen.value);
        CutAfter(start, mid, Look(), header, raw.error);
        RefusedAfter([ESCAPE], start, mid, Look(), header, raw.error);
        return Err(raw.error), [];
      }
      TookTwice(start, mid, Look(), header, raw.value);
      taken := header + raw.value;
      assert mid.future.stream[..defLen.value] == raw.value;
      var def := DefinitionCodec.FromBytes(raw.value, true);
      hide ParseDef;
      if def.Err? {
        TookFails(start, Look(), taken);
        return Err(InvalidData), [];
      }
      return Ok(Def(def.value)), taken;
    }

    /** One token: a response, or navigation to step over. */
    method ReadOne() returns (r: Result<Option<WingResponse>>, ghost taken: seq<Byte>)
      requires Valid()
      modifies this, channels, rxBuf, outside
      ensures Valid()
      ensures match r
              case Ok(Some(response)) =>
                var a := old(Look());
                Took(a, Look(), taken)
                && ParseResponse(a.future.node, a.future.stream) == Done(response, a.future.node, |taken|)
              case Ok(None) => Strode(old(Look()), Look(), taken) && taken != []
              case Err(e) => Cut(old(Look()), Look(), e) && Refused([], old(Look()), Look(), e)
    {
      hide Look, Valid, ParseResponse, Navigate, Refused, Cut;
      ghost var start := Look();
      var cmd := DecodeNext();
      if cmd.Err? {
        NothingRead(start, Look(), cmd.error);
        return Err(cmd.error), [];
      }
      ghost var mid := Look();
      if cmd.value == ESCAPE {
        var def;
        def, taken := ReadDefinition();
        if def.Err? {
          RefusedBehind(start, mid, Look(), cmd.value, def.error);
          return Err(def.error), [];
        }
        TookTwice(start, mid, Look(), [ESCAPE], taken);
        return Ok(Some(def.value)), [ESCAPE] + taken;
      }
      if cmd.value > ESCAPE {
        RejectsAt(start.future.node, start.future.stream);
        RefusedOutright(start, mid, [cmd.value]);
        return Err(InvalidData), [];
      }
      var operand := ReadToken(cmd.value);
      if operand.Err? {
        RefusedBehind(start, mid, Look(), cmd.value, operand.error);
        return Err(operand.error), [];
      }
      TookTwice(start, mid, Look(), [cmd.value], operand.value);
      taken := [cmd.value] + operand.value;
      r := InterpretNext(start, [cmd.value] + operand.value);
    }

    /** Act on the token `t` just read. */
    method InterpretNext(ghost start: View, t: seq<Byte>) returns (r: Result<Option<WingResponse>>)
      requires Valid() && |t| > 0 && |t| == TokenSize(t) && t[0] < ESCAPE
      requires Took(start, Look(), t)
      modifies this`currentNodeId
      ensures Valid()
      ensures match r
              case Ok(Some(response)) =>
                Took(start, Look(), t)
                && ParseResponse(start.future.node, start.future.stream) == Done(response, start.future.node, |t|)
              case Ok(None) => Strode(start, Look(), t)
              case Err(e) => Cut(start, Look(), e) && Refused([], start, Look(), e)
    {
      hide ParseResponse, Navigate, Stream, Tokenize, Refused, Cut;
      ghost var before := Look();
      assert currentNodeId == start.future.node;
      TokenDecides(start.future.node, t, before.future.stream);
      var response := Interpret(t);
      assert Look() == At(before, currentNodeId);
      if response.Err? {
        RefusedOutright(start, before, t);
        assert Look() == before;
        return Err(InvalidData);
      }
      return response;
    }

    method ReadInner() returns (r: Result<WingResponse>, ghost taken: seq<Byte>)
      requires Valid() && readCapture == []
      modifies this, channels, rxBuf, outside
      ensures Valid()
      ensures var a := old(Look());
              match r
              case Ok(response) =>
                Took(At(a, currentNodeId), Look(), taken)
                && ParseResponse(a.future.node, a.future.stream) == Done(response, currentNodeId, |taken|)
              case Err(e) =>
                Cut(a, Look(), e)
                && (e == InvalidData && !TapFull(Look()) ==> MayReject(a.future, MAX_NATIVE_RESPONSE_BYTES))
                && (e == ConnectionError ==> ParseResponse(a.future.node, a.future.stream).Need?)
    {
      hide Valid, Stream, ParseResponse, Navigate, Refused, Cut, MayReject;
      ghost var start := Look();
      taken := [];
      StrodeNothing(start);
      while true
        invariant Valid() && Strode(start, Look(), taken)
        decreases |Look().future.stream|
      {
        ghost var mid := Look();
        var one;
        ghost var token;
        one, token := ReadOne();
        match one {
          case Err(e) =>
            StrodeThenCut(start, mid, Look(), taken, e);
            if e == InvalidData && !TapFull(Look()) {
              StrodeThenRefused(start, mid, Look(), taken, e);
            }
            if e == ConnectionError {
              StrodeThenEnded(start, mid, Look(), taken);
            }
            return Err(e), [];
          case Ok(Some(response)) =>
            StrodeThenTook(start, mid, Look(), taken, token, response);
            return Ok(response), taken + token;
          case Ok(None) =>
            StrodeTwice(start, mid, Look(), taken, token);
            taken := taken + token;
        }
      }
    }

    // ---------- one read, all or nothing ----------

    /** Put everything the read has captured back in front of the stream. */
    method RollBack()
      requires Valid()
      modifies this`replay, this`readCapture
      ensures Stream() == old(readCapture) + old(Stream())
    {
      hide PayloadOf, ParameterBytes;
      var captured := readCapture;
      readCapture := [];
      for i := |captured| downto 0
        invariant replay == captured[i..] + old(replay)
      {
        replay := [captured[i]] + replay;
      }
      assert captured[0..] == captured;
    }

    /** Read one response off the stream. If it times out, what it captured goes back. */
    method ReadParsed() returns (r: Result<WingResponse>)
      requires Valid() && pending == [] && !streamTainted
      modifies this, channels, rxBuf, outside
      ensures Valid()
      ensures TappedRead(old(Look()), Look(), r)
    {
      hide Valid, Stream, ParseResponse, Navigate, MayReject, TappedRead, Cut, Took;
      ghost var start := old(Look()).(captured := []);
      readCapture := [];
      assert Look() == start;
      var previousNodeId := currentNodeId;
      ghost var taken;
      r, taken := ReadInner();
      ghost var end := Look();
      assert currentNodeId == end.future.node;
      if r == Err(Timeout) {
        RollBack();
        currentNodeId := previousNodeId;
      }
      readCapture := [];
      ReadIsAtomic(start, end, Look(), r, taken);
      CapturedUnseen(old(Look()), start, Look(), r);
    }

    /** Complete one read: a queued response, or the next one of the stream. */
    method ReadLocked() returns (r: Result<WingResponse>)
      requires Valid()
      modifies this, channels, rxBuf, outside
      ensures Valid()
      ensures TappedRead(old(Look()), Look(), r)
    {
      hide Valid, Stream, ParseResponse, MayReject, TappedRead;
      Refusals(old(Look()));
      if streamTainted {
        return Err(ConnectionError);
      }
      var reconnecting := SeesReconnect();
      if reconnecting {
        return Err(Reconnecting);
      }
      if pending != [] {
        r := Ok(pending[0]);
        pending := pending[1..];
        PendingRead(old(Look()));
        return;
      }
      r := ReadParsed();
      if r == Err(ConnectionError) || r == Err(Io) {
        ghost var end := Look();
        reconnecting := SeesReconnect();
        if reconnecting {
          Renamed(old(Look()), end, r.error);
          return Err(Reconnecting);
        }
      }
    }

    /** Look whether a reconnect is announced. */
    method SeesReconnect() returns (seen: bool)
      requires Valid()
      modifies outside`troubles
      ensures Valid()
      ensures Look() == if seen then old(Look()).(troubles := old(Look()).troubles + [ReconnectSeen])
                        else old(Look())
    {
      seen := outside.Announced();
    }

    /** Look whether the deadline has passed. */
    method SeesDeadline() returns (passed: bool)
      requires Valid()
      modifies outside`troubles
      ensures Valid()
      ensures Look() == if passed then old(Look()).(troubles := old(Look()).troubles + [DeadlineSeen])
                        else old(Look())
    {
      passed := outside.DeadlinePassed();
    }

    // ---------- public reads ----------

    /** Between operations there is no deadline and no tap. */
    ghost predicate Idle()
      reads this, rxBuf, channels
    {
      Valid() && capture == None && !opDeadline
    }

    method Read() returns (r: Result<WingResponse>)
      requires Idle()
      modifies this, channels, rxBuf, outside
      ensures Idle() && streamTainted == old(streamTainted)
      ensures ReadFrom(old(Ahead()), Ahead(), r) && r != Err(Timeout)
      ensures Answers(old(Look()), Look(), r)
    {
      hide Valid, Stream, ReadFrom;
      r := ReadLocked();
      ReadAnswers(old(Look()), Look(), r);
    }

    method ReadTimeout() returns (r: Result<WingResponse>)
      requires Idle()
      modifies this, channels, rxBuf, outside
      ensures Idle() && streamTainted == old(streamTainted)
      ensures ReadFrom(old(Ahead()), Ahead(), r)
      ensures Answers(old(Look()), Look(), r)
    {
      hide Valid, Stream, ReadFrom, Answers;
      SetDeadline(true);
      ghost var start := Look();
      r := ReadLocked();
      ReadAnswers(start, Look(), r);
      ghost var end := Look();
      SetDeadline(false);
      AnswersUnset(old(Look()), start, end, Look(), r);
    }

    method SetDeadline(on: bool)
      requires Valid()
      modifies this`opDeadline
      ensures Valid() && Look() == old(Look()).(deadline := on)
    {
      opDeadline := on;
      assert Stream() == old(Stream());
    }

    /** Put whole responses back in front of the queue, in order. */
    method Requeue(responses: seq<WingResponse>)
      requires Valid()
      modifies this`pending
      ensures Valid()
      ensures Look() == old(Look()).(future := Queued(responses, old(Ahead())))
    {
      for i := |responses| downto 0
        invariant pending == responses[i..] + old(pending)
      {
        pending := [responses[i]] + pending;
      }
      assert responses[0..] == responses;
      assert Stream() == old(Stream());
    }

    /** Take the whole queue. */
    method TakePending() returns (earlier: seq<WingResponse>)
      requires Valid()
      modifies this`pending
      ensures Valid() && earlier == old(pending)
      ensures Look() == old(Look()).(future := old(Ahead()).(pending := []))
    {
      earlier := pending;
      pending := [];
      assert Stream() == old(Stream());
    }

    // ---------- attended requests ----------

    /** Read until a response matches; the others are kept, in order. */
    method AttendedReadUntil(matches: WingResponse -> bool)
      returns (r: Result<(WingResponse, seq<WingResponse>)>, ghost seen: seq<WingResponse>)
      requires Valid() && capture == None
      modifies this, channels, rxBuf, outside
      ensures Valid() && capture == None && opDeadline == old(opDeadline)
      ensures streamTainted == old(streamTainted)
      ensures AttendedFrom(matches, old(Ahead()), Ahead(), seen, r)
      ensures Accounts(old(Look()), Look(), ErrorOf(r), seen)
    {
      hide Valid, Stream, NextResponse, MayReject, Delivers;
      var buffered: seq<WingResponse> := [];
      DeliversNothing(Ahead());
      while true
        invariant Valid() && Look().(captured := old(Look()).captured, future := old(Ahead())) == old(Look())
        invariant |buffered| <= MAX_ATTENDED_BUFFERED
        invariant forall b <- buffered :: !matches(b)
        invariant Delivers(old(Ahead()), buffered, Ahead())
        invariant streamTainted ==> buffered == []
        decreases Left(Ahead())
      {
        ghost var before := Ahead();
        var next := ReadLocked();
        if next.Err? {
          ReadEnded(old(Look()), Look(), before, buffered, next.error);
          if next.error == Timeout {
            Requeue(buffered);
          }
          return Err(next.error), buffered;
        }
        NextShrinks(before);
        DeliversPush(old(Ahead()), buffered, before);
        var response := next.value;
        if matches(response) {
          return Ok((response, buffered)), buffered;
        }
        if |buffered| >= MAX_ATTENDED_BUFFERED {
          return Err(InvalidData), buffered + [response];
        }
        buffered := buffered + [response];
        var passed := SeesDeadline();
        if passed {
          Requeue(buffered);
          return Err(Timeout), buffered;
        }
      }
    }

    /** Send a request; what is sent is not part of the reader's state. */
    method SendRequest() returns (r: Result<()>)
      requires Valid()
      modifies outside`troubles
      ensures Valid()
      ensures r.Err? <==> r == Err(Io) || r == Err(ConnectionError)
      ensures r == Err(ConnectionError) <==> streamTainted
      ensures Look() == if r == Err(Io) then old(Look()).(troubles := old(Look()).troubles + [LineFault])
                        else old(Look())
    {
      if streamTainted {
        return Err(ConnectionError);
      }
      var ok := outside.Write();
      return if ok then Ok(()) else Err(Io);
    }

    method GetNodeData(id: Int32)
      returns (r: Result<(WingResponse, seq<WingResponse>)>, ghost seen: seq<WingResponse>)
      requires Idle()
      modifies this, channels, rxBuf, outside
      ensures Idle() && streamTainted == old(streamTainted)
      ensures AttendedFrom(IsDataOf(id), old(Ahead()), Ahead(), seen, r)
      ensures Accounts(old(Look()), Look(), ErrorOf(r), seen)
      ensures r.Ok? ==> r.value.0.Value? && r.value.0.id == id
                        && forall b <- r.value.1 :: b.Value? ==> b.id != id
    {
      r, seen := Attend(IsDataOf(id));
    }

    method GetNodeDefinition(id: Int32)
      returns (r: Result<(WingResponse, seq<WingResponse>)>, ghost seen: seq<WingResponse>)
      requires Idle()
      modifies this, channels, rxBuf, outside
      ensures Idle() && streamTainted == old(streamTainted)
      ensures AttendedFrom(IsDefinitionOf(id), old(Ahead()), Ahead(), seen, r)
      ensures Accounts(old(Look()), Look(), ErrorOf(r), seen)
      ensures r.Ok? ==> r.value.0.Def? && r.value.0.def.id == id
                        && forall b <- r.value.1 :: b.Def? ==> b.def.id != id
    {
      r, seen := Attend(IsDefinitionOf(id));
    }

    method Attend(matches: WingResponse -> bool)
      returns (r: Result<(WingResponse, seq<WingResponse>)>, ghost seen: seq<WingResponse>)
      requires Idle()
      modifies this, channels, rxBuf, outside
      ensures Idle() && streamTainted == old(streamTainted)
      ensures AttendedFrom(matches, old(Ahead()), Ahead(), seen, r)
      ensures Accounts(old(Look()), Look(), ErrorOf(r), seen)
    {
      hide Valid, Stream, MayReject, Delivers;
      var sent := SendRequest();
      if sent.Err? {
        DeliversNothing(Ahead());
        NotSent(old(Look()), Look(), sent.error);
        return Err(sent.error), [];
      }
      SetDeadline(true);
      r, seen := AttendedReadUntil(matches);
      SetDeadline(false);
    }

    /** Every definition of a subtree. The older queue is set aside and put back first. */
    method GetNodeDefinitions(root: Int32)
      returns (r: Result<seq<NodeDef>>, ghost seen: seq<WingResponse>)
      requires Idle()
      modifies this, channels, rxBuf, outside
      ensures Idle() && streamTainted == old(streamTainted)
      ensures FetchedFrom(root, old(Ahead()), Ahead(), seen, r)
      ensures Accounts(Unqueued(old(Look())), Look(), ErrorOf(r), seen)
    {
      hide Valid, Stream, Delivers, FetchedFrom;
      var earlier := TakePending();
      ghost var start := Ahead();
      var sent := SendRequest();
      if sent.Err? {
        Requeue(earlier);
        NothingFetched(root, old(Ahead()), sent.error);
        NotSent(Unqueued(old(Look())), Look(), sent.error);
        return Err(sent.error), [];
      }
      SetDeadline(true);
      var buffered;
      r, buffered, seen := DrainDefinitions(root);
      SetDeadline(false);
      ghost var end := Ahead();
      Requeue(earlier + buffered);
      FetchedBehindQueue(root, old(Ahead()), end, seen, r, buffered);
    }

    /** Read until the end marker that follows the first definition of the subtree. */
    method DrainDefinitions(root: Int32)
      returns (r: Result<seq<NodeDef>>, buffered: seq<WingResponse>, ghost seen: seq<WingResponse>)
      requires Valid() && capture == None
      modifies this, channels, rxBuf, outside
      ensures Valid() && capture == None && opDeadline == old(opDeadline)
      ensures streamTainted == old(streamTainted)
      ensures DrainedFrom(root, old(Ahead()), Ahead(), seen, r, buffered)
      ensures Accounts(old(Look()), Look(), ErrorOf(r), seen)
    {
      hide Valid, Stream, NextResponse, MayReject, Delivers, Split, EndsOnlyBefore, Ended, Ids;
      var definitions: seq<NodeDef> := [];
      buffered, seen := [], [];
      var ids := {root};
      DeliversNothing(Ahead());
      NothingSplit(root);
      while true
        invariant Valid() && Look().(captured := old(Look()).captured, future := old(Ahead())) == old(Look())
        invariant ids == Ids(root, definitions) && (definitions, buffered) == Split(root, seen)
        invariant EndsOnlyBefore(root, seen) && (streamTainted ==> seen == [])
        invariant Delivers(old(Ahead()), seen, Ahead())
        decreases Left(Ahead())
      {
        ghost var before := Ahead();
        var next := ReadLocked();
        if next.Err? {
          ReadEnded(old(Look()), Look(), before, seen, next.error);
          return Err(next.error), buffered, seen;
        }
        var response := next.value;
        NextShrinks(before);
        DeliversPush(old(Ahead()), seen, before);
        if response == End && definitions != [] {
          return Ok(definitions), buffered, seen;
        }
        SplitPush(root, seen, response);
        EndsOnlyBeforePush(root, seen, response);
        seen := seen + [response];
        if response.Def? && (response.def.id in ids || response.def.parentId in ids) {
          IdsPush(root, definitions, response.def);
          ids := ids + {response.def.id};
          definitions := definitions + [response.def];
        } else if |buffered| < MAX_ATTENDED_BUFFERED {
          buffered := buffered + [response];
        } else {
          return Err(InvalidData), buffered, seen;
        }
        var passed := SeesDeadline();
        if passed {
          return Err(Timeout), buffered, seen;
        }
      }
    }

    /** Request a subtree and capture the bytes of the reply. A timeout fences the session: the
        uncertain tail must not be read as anything else. */
    method GetBinaryNode() returns (r: Result<seq<Byte>>, ghost seen: seq<WingResponse>)
      requires Idle()
      modifies this, channels, rxBuf, outside
      ensures Idle()
      ensures streamTainted == (old(streamTainted) || r == Err(Timeout))
      ensures CapturedFrom(old(Ahead()), Ahead(), seen, r)
      ensures Accounts(Unqueued(old(Look())), Look(), ErrorOf(r), seen)
      ensures r == Err(InvalidData) ==> Unreadable(old(Ahead()), seen)
    {
      hide Valid, Stream, Delivers, CapturedFrom;
      var sent := SendRequest();
      if sent.Err? {
        NothingCaptured(Ahead(), sent.error);
        NotSent(Unqueued(old(Look())), Look(), sent.error);
        return Err(sent.error), [];
      }
      StartCapture();
      var earlier := TakePending();
      var done: Result<()>;
      done, seen := DrainCapture();
      ghost var end := Look();
      Requeue(earlier);
      var captured := StopCapture();
      if done == Err(Timeout) {
        streamTainted := true;
        assert Stream() == Stream();
      }
      r := if done.Err? then Err(done.error) else Ok(captured);
      CapturedBehindQueue(old(Ahead()), end, seen, done, captured);
    }

    method StartCapture()
      requires Valid()
      modifies this`capture, this`opDeadline
      ensures Valid() && Look() == old(Look()).(tap := Some([]), deadline := true)
    {
      capture := Some([]);
      opDeadline := true;
      assert Stream() == old(Stream());
    }

    method StopCapture() returns (captured: seq<Byte>)
      requires Valid()
      modifies this`capture, this`opDeadline
      ensures Valid() && Look() == old(Look()).(tap := None, deadline := false)
      ensures captured == Taps(old(Look()))
    {
      captured := if capture.Some? then capture.value else [];
      capture := None;
      opDeadline := false;
      assert Stream() == old(Stream());
    }

    /** Read until the first end marker, with a tap on the bytes. */
    method DrainCapture() returns (r: Result<()>, ghost seen: seq<WingResponse>)
      requires Valid() && capture == Some([]) && pending == []
      modifies this, channels, rxBuf, outside
      ensures Valid() && streamTainted == old(streamTainted) && pending == []
      ensures DrainedCapture(old(Ahead()), Look(), seen, r)
      ensures Accounts(old(Look()), Look(), ErrorOf(r), seen)
      ensures r == Err(InvalidData) ==> Unreadable(old(Ahead()), seen)
    {
      hide Valid, Stream, NextResponse, Delivers;
      seen := [];
      DeliversNothing(Ahead());
      while true
        invariant Valid() && Look().tainted == old(Look()).tainted && pending == []
        invariant Look().troubles == old(Look()).troubles
        invariant Look().tap.Some? && Look().tap.value + Ahead().stream == old(Ahead()).stream
        invariant Delivers(old(Ahead()), seen, Ahead()) && End !in seen
        invariant streamTainted ==> seen == []
        decreases Left(Ahead())
      {
        ghost var before := Ahead();
        var next := ReadLocked();
        if next.Err? {
          ReadEnded(old(Look()), Look(), before, seen, next.error);
          return Err(next.error), seen;
        }
        NextShrinks(before);
        DeliversPush(old(Ahead()), seen, before);
        if next.value == End {
          return Ok(()), seen;
        }
        seen := seen + [next.value];
        var passed := SeesDeadline();
        if passed {
          return Err(Timeout), seen;
        }
      }
    }
  }
}
