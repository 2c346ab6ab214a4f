/** The messages a client writes: value sets, toggles, requests, and the metering commands.
    The byte layouts are written independently of the server's decoder. */
module ClientMessages {
  import opened Basics
  import opened Framing
  import opened Tokens
  import opened Meters

  datatype Message =
    | SetNode(id: Int32, value: NativeValue)
    | ToggleNode(id: Int32)
    | RequestData(id: Int32)
    | RequestDefinition(id: Int32)
    | KeepDataAlive
    | SubscribeMeters(meterId: U16, port: U16, meters: seq<Meter>)
    | RenewMeters(meterId: U16, port: U16)

  /** The messages the builders accept. */
  predicate Sendable(m: Message) {
    match m
    case SetNode(_, value) => Encodable(value)
    case SubscribeMeters(_, _, meters) => forall x :: x in meters ==> Requestable(x)
    case _ => true
  }

  // ---------- wire layout ----------

  function IdMessage(id: Int32, suffix: seq<Byte>): seq<Byte> {
    [0xd7] + Escape(BeI32(id)) + suffix
  }

  function MessageBytes(m: Message): seq<Byte>
    requires Sendable(m)
  {
    match m
    case SetNode(id, value) => IdMessage(id, Escape(EncodeValue(value).value))
    case ToggleNode(id) => IdMessage(id, [0xd8])
    case RequestData(id) => if id == 0 then [0xda, 0xdc] else IdMessage(id, [0xdc])
    case RequestDefinition(id) => if id == 0 then [0xda, 0xdd] else IdMessage(id, [0xdd])
    case KeepDataAlive => [0xdf, 0xd1]
    case SubscribeMeters(meterId, port, meters) =>
      [0xdf, 0xd3, 0xd3] + Escape(Be16(port))
      + [0xd4] + Escape(Be16(meterId)) + Escape(Be16(port)) + [0xdc]
      + Escape(EntriesBytes(meters)) + [0xde] + [0xdf, 0xd1]
    case RenewMeters(meterId, port) =>
      [0xdf, 0xd3, 0xd4] + Escape(Be16(meterId)) + Escape(Be16(port)) + [0xdf, 0xd1]
  }

  predicate AllSendable(messages: seq<Message>) {
    messages == [] || (Sendable(messages[0]) && AllSendable(messages[1..]))
  }

  /** Any number of messages, one after the other. */
  function StreamBytes(messages: seq<Message>): seq<Byte>
    requires AllSendable(messages)
  {
    if messages == [] then [] else MessageBytes(messages[0]) + StreamBytes(messages[1..])
  }

  // ---------- the builders ----------

  method FormatId(id: Int32, buf: seq<Byte>, prefix: Byte, suffix: Option<Byte>)
    returns (out: seq<Byte>)
    ensures out == buf + [prefix] + Escape(BeI32(id)) + (if suffix.Some? then [suffix.value] else [])
  {
    out := AppendEscaped(buf + [prefix], BeI32(id));
    if suffix.Some? {
      out := out + [suffix.value];
    }
  }

  /** Append one set message to `buf`; on error `buf` is left as it was. */
  method AppendValueMessage(buf: seq<Byte>, id: Int32, value: NativeValue)
    returns (r: Result<()>, out: seq<Byte>)
    ensures Encodable(value) ==> r == Ok(()) && out == buf + MessageBytes(SetNode(id, value))
    ensures !Encodable(value) ==> r == Err(InvalidInput) && out == buf
  {
    hide Escape, BeI32, EncodeValue, MessageBytes;
    var token := EncodeValue(value);
    if token.Err? {
      return Err(InvalidInput), buf;
    }
    out := FormatId(id, buf, 0xd7, None);
    out := AppendEscaped(out, token.value);
    SetMessageBytes(buf, id, value);
    r := Ok(());
  }

  lemma SetMessageBytes(buf: seq<Byte>, id: Int32, value: NativeValue)
    requires Encodable(value)
    ensures buf + [0xd7] + Escape(BeI32(id)) + [] + Escape(EncodeValue(value).value)
         == buf + MessageBytes(SetNode(id, value))
  {
    hide Escape, BeI32, EncodeValue;
  }

  method RequestNodeMessage(id: Int32, opcode: Byte) returns (buf: seq<Byte>)
    requires opcode == 0xdc || opcode == 0xdd
    ensures buf == MessageBytes(if opcode == 0xdc then RequestData(id) else RequestDefinition(id))
  {
    if id == 0 {
      buf := [0xda];
      buf := buf + [opcode];
    } else {
      buf := FormatId(id, [], 0xd7, Some(opcode));
      assert buf == IdMessage(id, [opcode]);
    }
  }

  method ToggleMessage(id: Int32) returns (buf: seq<Byte>)
    ensures buf == MessageBytes(ToggleNode(id))
  {
    buf := FormatId(id, [], 0xd7, Some(0xd8));
    assert buf == IdMessage(id, [0xd8]);
  }

  /** Build a subscription; one out-of-range meter refuses all of it. */
  method SubscribeMessage(meterId: U16, port: U16, meters: seq<Meter>) returns (r: Result<seq<Byte>>)
    ensures var m := SubscribeMeters(meterId, port, meters);
            if Sendable(m) then r == Ok(MessageBytes(m)) else r == Err(InvalidInput)
  {
    var encoded: seq<Byte> := [];
    for i := 0 to |meters|
      invariant forall x :: x in meters[..i] ==> Requestable(x)
      invariant encoded == Escape(EntriesBytes(meters[..i]))
    {
      var next := EncodeMeter(encoded, meters[i]);
      if next.Err? {
        assert meters[i] in meters;
        return Err(InvalidInput);
      }
      encoded := next.value;
      assert meters[..i + 1] == meters[..i] + [meters[i]];
      EntriesBytesPush(meters[..i], meters[i]);
      EscapeConcat(EntriesBytes(meters[..i]), EntryBytes(meters[i]));
    }
    assert meters[..|meters|] == meters;
    var buf := AppendEscaped([0xdf, 0xd3, 0xd3], Be16(port));
    buf := buf + [0xd4];
    buf := AppendEscaped(buf, Be16(meterId));
    buf := AppendEscaped(buf, Be16(port));
    buf := buf + [0xdc];
    buf := buf + encoded;
    buf := buf + [0xde];
    buf := buf + [0xdf, 0xd1];
    return Ok(buf);
  }

  method RenewMessage(meterId: U16, port: U16) returns (buf: seq<Byte>)
    ensures buf == MessageBytes(RenewMeters(meterId, port))
  {
    buf := AppendEscaped([0xdf, 0xd3, 0xd4], Be16(meterId));
    buf := AppendEscaped(buf, Be16(port));
    buf := buf + [0xdf, 0xd1];
  }

  lemma {:induction false} EntriesBytesPush(meters: seq<Meter>, m: Meter)
    requires forall x :: x in meters ==> Requestable(x)
    requires Requestable(m)
    ensures EntriesBytes(meters + [m]) == EntriesBytes(meters) + EntryBytes(m)
  {
    if meters == [] {
      assert EntriesBytes([m]) == EntryBytes(m) + [];
    } else {
      assert (meters + [m])[1..] == meters[1..] + [m];
      assert meters[0] in meters && forall x :: x in meters[1..] ==> x in meters;
      EntriesBytesPush(meters[1..], m);
    }
  }
}
