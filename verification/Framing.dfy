/** Channel selection and 0xdf escaping: the outer layer of the Native TCP stream. */
module Framing {
  import opened Basics

  const ESCAPE: Byte := 0xdf
  const ESCAPED_ESCAPE: Byte := 0xde
  const CHANNEL_BASE: Byte := 0xd0
  const CHANNEL_COUNT: Byte := 14

  datatype ChannelEvent =
    | Selected(channel: Byte)
    | Data(channel: Byte, value: Byte)

  datatype FrameState = FrameState(escaped: bool, channel: Option<Byte>)

  /** What a fragment decodes to, or the state in which it was rejected. */
  datatype Framed =
    | Framed(state: FrameState, events: seq<ChannelEvent>)
    | Broken(state: FrameState)

  function OnChannel(channel: Byte): FrameState {
    FrameState(false, Some(channel))
  }

  // ---------- specification of the decoder ----------

  function DeframeByte(s: FrameState, b: Byte): Framed {
    if !s.escaped && b == ESCAPE then
      Framed(s.(escaped := true), [])
    else if s.escaped && CHANNEL_BASE <= b <= 0xdd then
      Framed(OnChannel(b - CHANNEL_BASE), [Selected(b - CHANNEL_BASE)])
    else if s.channel.None? then
      Broken(s.(escaped := false))
    else
      var c := s.channel.value;
      Framed(OnChannel(c),
             if !s.escaped then [Data(c, b)]
             else if b == ESCAPED_ESCAPE || b == ESCAPE then [Data(c, ESCAPE)]
             else [Data(c, ESCAPE), Data(c, b)])
  }

  function Deframe(s: FrameState, wire: seq<Byte>): Framed
    decreases wire
  {
    if wire == [] then Framed(s, [])
    else
      match DeframeByte(s, wire[0])
      case Broken(t) => Broken(t)
      case Framed(t, events) => After(events, Deframe(t, wire[1..]))
  }

  function After(events: seq<ChannelEvent>, rest: Framed): Framed {
    if rest.Framed? then rest.(events := events + rest.events) else rest
  }

  function Escape(payload: seq<Byte>): seq<Byte> {
    if payload == [] then []
    else EscapeByte(payload[0]) + Escape(payload[1..])
  }

  function EscapeByte(b: Byte): seq<Byte> {
    if b == ESCAPE then [b, ESCAPED_ESCAPE] else [b]
  }

  function SelectChannel(channel: Byte): seq<Byte>
    requires channel < CHANNEL_COUNT
  {
    [ESCAPE, CHANNEL_BASE + channel]
  }

  function DataOn(channel: Byte, payload: seq<Byte>): (events: seq<ChannelEvent>)
    ensures |events| == |payload|
  {
    if payload == [] then [] else [Data(channel, payload[0])] + DataOn(channel, payload[1..])
  }

  /** The payload bytes that `events` carry on one channel. */
  function PayloadOf(channel: Byte, events: seq<ChannelEvent>): seq<Byte> {
    if events == [] then []
    else (if events[0].Data? && events[0].channel == channel then [events[0].value] else [])
         + PayloadOf(channel, events[1..])
  }

  // ---------- laws ----------

  /** Decoding does not depend on where a stream is cut into fragments. */
  lemma {:induction false} DeframeConcat(s: FrameState, a: seq<Byte>, b: seq<Byte>)
    ensures Deframe(s, a + b) ==
            match Deframe(s, a)
            case Broken(t) => Broken(t)
            case Framed(t, events) => After(events, Deframe(t, b))
    decreases a
  {
    if a == [] {
      assert a + b == b;
    } else {
      assert (a + b)[1..] == a[1..] + b;
      match DeframeByte(s, a[0])
      case Broken(t) =>
      case Framed(t, events) =>
        DeframeConcat(t, a[1..], b);
        var rest := Deframe(t, a[1..]);
        if rest.Framed? && Deframe(rest.state, b).Framed? {
          assert events + (rest.events + Deframe(rest.state, b).events)
              == (events + rest.events) + Deframe(rest.state, b).events;
        }
    }
  }

  lemma DeframeTwo(s: FrameState, x: Byte, y: Byte)
    requires DeframeByte(s, x).Framed?
    ensures Deframe(s, [x, y]) == After(DeframeByte(s, x).events, Deframe(DeframeByte(s, x).state, [y]))
    ensures forall t: FrameState {:trigger Deframe(t, [y])} :: Deframe(t, [y]) == DeframeByte(t, y)
  {
    assert [x, y][1..] == [y];
    forall t: FrameState
      ensures Deframe(t, [y]) == DeframeByte(t, y)
    {
      assert [y][1..] == [];
      if DeframeByte(t, y).Framed? {
        assert DeframeByte(t, y).events + [] == DeframeByte(t, y).events;
      }
    }
  }

  lemma {:induction false} EscapeConcat(a: seq<Byte>, b: seq<Byte>)
    ensures Escape(a + b) == Escape(a) + Escape(b)
  {
    if a == [] {
      assert a + b == b;
    } else {
      assert (a + b)[1..] == a[1..] + b;
      EscapeConcat(a[1..], b);
      assert Escape(a + b) == EscapeByte(a[0]) + (Escape(a[1..]) + Escape(b));
    }
  }

  lemma {:induction false} DataOnConcat(c: Byte, a: seq<Byte>, b: seq<Byte>)
    ensures DataOn(c, a + b) == DataOn(c, a) + DataOn(c, b)
  {
    if a == [] {
      assert a + b == b;
    } else {
      assert (a + b)[1..] == a[1..] + b;
      DataOnConcat(c, a[1..], b);
    }
  }

  lemma {:induction false} PayloadOfConcat(c: Byte, a: seq<ChannelEvent>, b: seq<ChannelEvent>)
    ensures PayloadOf(c, a + b) == PayloadOf(c, a) + PayloadOf(c, b)
  {
    if a == [] {
      assert a + b == b;
    } else {
      assert (a + b)[1..] == a[1..] + b;
      PayloadOfConcat(c, a[1..], b);
    }
  }

  lemma {:induction false} PayloadOfDataOn(c: Byte, payload: seq<Byte>)
    ensures PayloadOf(c, DataOn(c, payload)) == payload
  {
    if payload == [] {
    } else {
      PayloadOfDataOn(c, payload[1..]);
      assert DataOn(c, payload)[1..] == DataOn(c, payload[1..]);
    }
  }

  /** An escaped payload decodes to itself, whatever 0xdf bytes it holds. */
  lemma {:induction false} EscapeRoundTrip(c: Byte, payload: seq<Byte>)
    ensures Deframe(OnChannel(c), Escape(payload)) == Framed(OnChannel(c), DataOn(c, payload))
  {
    if payload == [] {
    } else {
      EscapeRoundTrip(c, payload[1..]);
      DeframeConcat(OnChannel(c), EscapeByte(payload[0]), Escape(payload[1..]));
      var head := EscapeByte(payload[0]);
      assert Deframe(OnChannel(c), head) == Framed(OnChannel(c), [Data(c, payload[0])]) by {
        if payload[0] == ESCAPE {
          assert head == [ESCAPE] + [ESCAPED_ESCAPE];
          DeframeTwo(OnChannel(c), ESCAPE, ESCAPED_ESCAPE);
        }
      }
    }
  }

  /** A complete frame selects its channel and then delivers its payload, from any state
      that is not halfway through an escape. */
  lemma FrameRoundTrip(s: FrameState, channel: Byte, payload: seq<Byte>)
    requires channel < CHANNEL_COUNT && !s.escaped
    ensures Deframe(s, SelectChannel(channel) + Escape(payload))
         == Framed(OnChannel(channel), [Selected(channel)] + DataOn(channel, payload))
  {
    var head := SelectChannel(channel);
    DeframeConcat(s, head, Escape(payload));
    EscapeRoundTrip(channel, payload);
    assert Deframe(s, head) == Framed(OnChannel(channel), [Selected(channel)]) by {
      DeframeTwo(s, ESCAPE, CHANNEL_BASE + channel);
    }
  }

  /** Once a channel is selected, no input can be rejected. */
  lemma {:induction false} NeverBroken(s: FrameState, wire: seq<Byte>)
    requires s.channel.Some?
    ensures Deframe(s, wire).Framed? && Deframe(s, wire).state.channel.Some?
    decreases wire
  {
    if wire != [] {
      NeverBroken(DeframeByte(s, wire[0]).state, wire[1..]);
    }
  }

  /** The parameter bytes in a stretch of wire, when a channel is already selected. */
  function ParameterBytes(s: FrameState, wire: seq<Byte>): seq<Byte>
    requires s.channel.Some?
  {
    NeverBroken(s, wire);
    PayloadOf(1, Deframe(s, wire).events)
  }

  lemma ParameterBytesStep(s: FrameState, b: Byte, rest: seq<Byte>)
    requires s.channel.Some?
    ensures var f := DeframeByte(s, b);
            && f.Framed? && f.state.channel.Some? && |f.events| <= 2
            && ParameterBytes(s, [b] + rest) == PayloadOf(1, f.events) + ParameterBytes(f.state, rest)
  {
    var f := DeframeByte(s, b);
    assert ([b] + rest)[1..] == rest;
    NeverBroken(f.state, rest);
    PayloadOfConcat(1, f.events, Deframe(f.state, rest).events);
  }

  lemma {:induction false} EscapeLength(payload: seq<Byte>)
    ensures |payload| <= |Escape(payload)| <= 2 * |payload|
  {
    if payload != [] {
      EscapeLength(payload[1..]);
    }
  }

  // ---------- the program ----------

  class ChannelDecoder {
    var escaped: bool
    var channel: Option<Byte>

    function State(): FrameState
      reads this
    {
      FrameState(escaped, channel)
    }

    constructor ()
      ensures State() == FrameState(false, None)
    {
      escaped, channel := false, None;
    }

    /** Start with an already selected channel. */
    static method WithChannel(selected: Byte) returns (r: Result<ChannelDecoder>)
      ensures selected >= CHANNEL_COUNT ==> r == Err(InvalidInput)
      ensures selected < CHANNEL_COUNT ==> r.Ok? && fresh(r.value) && r.value.State() == OnChannel(selected)
    {
      if selected >= CHANNEL_COUNT {
        return Err(InvalidInput);
      }
      var decoder := new ChannelDecoder();
      decoder.channel := Some(selected);
      return Ok(decoder);
    }

    /** Decode one byte; a raw escape token can emit two events. */
    method PushByte(byte: Byte) returns (r: Result<seq<ChannelEvent>>)
      modifies this
      ensures State() == DeframeByte(old(State()), byte).state
      ensures r == match DeframeByte(old(State()), byte)
                   case Framed(_, events) => Ok(events)
                   case Broken(_) => Err(InvalidData)
    {
      if !escaped {
        if byte == ESCAPE {
          escaped := true;
          return Ok([]);
        }
        if channel.None? {
          return Err(InvalidData);
        }
        return Ok([Data(channel.value, byte)]);
      }
      escaped := false;
      if byte == ESCAPED_ESCAPE || byte == ESCAPE {
        if channel.None? {
          return Err(InvalidData);
        }
        return Ok([Data(channel.value, ESCAPE)]);
      } else if CHANNEL_BASE <= byte <= 0xdd {
        channel := Some(byte - CHANNEL_BASE);
        return Ok([Selected(byte - CHANNEL_BASE)]);
      } else {
        if channel.None? {
          return Err(InvalidData);
        }
        return Ok([Data(channel.value, ESCAPE), Data(channel.value, byte)]);
      }
    }

    /** Discard all framing state. */
    method Reset()
      modifies this
      ensures State() == FrameState(false, None)
    {
      escaped, channel := false, None;
    }

    /** Consume an arbitrary fragment and return every complete logical event. */
    method Push(input: seq<Byte>) returns (r: Result<seq<ChannelEvent>>)
      modifies this
      ensures State() == Deframe(old(State()), input).state
      ensures r == match Deframe(old(State()), input)
                   case Framed(_, events) => Ok(events)
                   case Broken(_) => Err(InvalidData)
    {
      hide DeframeByte;
      var events := [];
      for i := 0 to |input|
        invariant Deframe(old(State()), input) == After(events, Deframe(State(), input[i..]))
      {
        assert input[i..][1..] == input[i + 1..];
        var next := PushByte(input[i]);
        if next.Err? {
          return Err(next.error);
        }
        events := events + next.value;
      }
      assert input[|input|..] == [] && events + [] == events;
      return Ok(events);
    }

    /** Reject a stream that ends halfway through an escape sequence. */
    method Finish() returns (r: Result<()>)
      ensures r.Ok? <==> !State().escaped
    {
      return if escaped then Err(InvalidData) else Ok(());
    }
  }

  /** Append `payload` to `out`, following every 0xdf with 0xde. */
  method AppendEscaped(out: seq<Byte>, payload: seq<Byte>) returns (wire: seq<Byte>)
    ensures wire == out + Escape(payload)
  {
    wire := out;
    for i := 0 to |payload|
      invariant wire + Escape(payload[i..]) == out + Escape(payload)
    {
      assert payload[i..][1..] == payload[i + 1..];
      wire := wire + [payload[i]];
      if payload[i] == ESCAPE {
        wire := wire + [ESCAPED_ESCAPE];
      }
    }
  }

  /** One complete frame: select the channel, then the escaped payload. */
  method EncodeChannel(channel: Byte, payload: seq<Byte>) returns (r: Result<seq<Byte>>)
    ensures channel >= CHANNEL_COUNT ==> r == Err(InvalidInput)
    ensures channel < CHANNEL_COUNT ==> r == Ok(SelectChannel(channel) + Escape(payload))
  {
    if channel >= CHANNEL_COUNT {
      return Err(InvalidInput);
    }
    var wire := AppendEscaped([ESCAPE, CHANNEL_BASE + channel], payload);
    return Ok(wire);
  }
}
