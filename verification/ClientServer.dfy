/** What a client writes is what a server reads. */
module ClientServer {
  import opened Basics
  import opened Framing
  import opened Tokens
  import opened Meters
  import opened Requests
  import opened RequestLaws
  import opened ClientMessages

  /** The report id a server sees: the subscription's id, then its port. */
  function ReportId(meterId: U16, port: U16): U32 {
    meterId * 0x1_0000 + port
  }

  /** The requests one client message stands for. */
  function Expected(m: Message): seq<Request> {
    match m
    case SetNode(id, value) => [Set(id, value)]
    case ToggleNode(id) => [Toggle(id)]
    case RequestData(id) => [if id == 0 then BulkData([]) else Get(id)]
    case RequestDefinition(id) => [if id == 0 then BulkDefinition([]) else Definition(id)]
    case KeepDataAlive => [KeepAlive(1)]
    case SubscribeMeters(meterId, port, meters) =>
      [KeepAlive(3), MeterPort(port), MeterSubscribe(port, ReportId(meterId, port), meters), KeepAlive(1)]
    case RenewMeters(meterId, port) =>
      [KeepAlive(3), MeterRenew(ReportId(meterId, port)), KeepAlive(1)]
  }

  function AllExpected(messages: seq<Message>): seq<Request> {
    if messages == [] then [] else Expected(messages[0]) + AllExpected(messages[1..])
  }

  predicate WithinLimits(limits: Limits, m: Message) {
    m.SubscribeMeters? ==> |m.meters| <= limits.maxMeterEntries
  }

  /** Room for any one token, and for the largest subscription the entry limit allows. */
  predicate Roomy(limits: Limits) {
    && limits.maxStringBytes >= 256
    && limits.maxBufferedBytes >= 258
    && limits.maxBufferedBytes >= 7 + 2 * limits.maxMeterEntries
  }

  /** Between messages: nothing buffered. */
  predicate Idle(c: Core) {
    c.audio == [] && c.meter == [] && c.pathBytes == NameBytes(c.path)
  }

  /** `wire` is consumed whole on channel 1, yields `requests`, and leaves the decoder idle. */
  ghost predicate Yields(limits: Limits, c: Core, wire: seq<Byte>, requests: seq<Request>, after: Core)
    requires Idle(c)
  {
    && Idle(after)
    && var d := Deframe(OnChannel(1), wire);
       d.Framed? && d.state == OnChannel(1) && Run(limits, c, d.events) == Progress(after, requests)
  }

  lemma YieldsConcat(limits: Limits, c: Core, a: seq<Byte>, ra: seq<Request>, mid: Core,
                     b: seq<Byte>, rb: seq<Request>, after: Core)
    requires Idle(c) && Yields(limits, c, a, ra, mid) && Yields(limits, mid, b, rb, after)
    ensures Yields(limits, c, a + b, ra + rb, after)
  {
    DeframeConcat(OnChannel(1), a, b);
    RunConcat(limits, c, Deframe(OnChannel(1), a).events, Deframe(OnChannel(1), b).events);
  }

  // ---------- parameter messages ----------

  /** Feeding a whole token, byte by byte, applies it. */
  lemma {:induction false} TokenRun(limits: Limits, c: Core, t: seq<Byte>, k: nat)
    requires Idle(c) && NextToken(t).Complete? && NextToken(t).size == |t|
    requires k < |t| <= limits.maxBufferedBytes
    ensures Run(limits, c.(audio := t[..k]), DataOn(1, t[k..])) == Apply(limits, c, NextToken(t).token)
    decreases |t| - k
  {
    var at := c.(audio := t[..k]);
    var grown := c.(audio := t[..k + 1]);
    assert t[..k] + [t[k]] == t[..k + 1] && t[k..][1..] == t[k + 1..];
    assert DataOn(1, t[k..]) == [Data(1, t[k])] + DataOn(1, t[k + 1..]);
    assert DataOn(1, t[k..])[1..] == DataOn(1, t[k + 1..]);
    HandleKeepsPathBytes(limits, at, Data(1, t[k]));
    if k + 1 < |t| {
      NextTokenPrefix(t, k + 1);
      assert Handle(limits, at, Data(1, t[k])) == Progress(grown, []);
      TokenRun(limits, c, t, k + 1);
      BeforeNothing(Run(limits, grown, DataOn(1, t[k + 1..])));
    } else {
      assert t[..k + 1] == t && t[|t|..] == [];
      var p := Apply(limits, c, NextToken(t).token);
      assert Handle(limits, at, Data(1, t[k])) == p;
      if p.Progress? {
        assert DataOn(1, t[k + 1..]) == [] && p.requests + [] == p.requests;
      }
    }
  }

  lemma TokenYields(limits: Limits, c: Core, t: seq<Byte>)
    requires Idle(c) && NextToken(t).Complete? && NextToken(t).size == |t| <= limits.maxBufferedBytes
    requires Apply(limits, c, NextToken(t).token).Progress?
    ensures var p := Apply(limits, c, NextToken(t).token);
            Yields(limits, c, Escape(t), p.requests, p.core)
  {
    var p := Apply(limits, c, NextToken(t).token);
    EscapeRoundTrip(1, t);
    TokenRun(limits, c, t, 0);
    assert t[0..] == t && t[..0] == [] && c.(audio := []) == c;
    ApplyKeepsPathBytes(limits, c, NextToken(t).token);
    assert Idle(p.core) by {
      ApplyKeepsBuffers(limits, c, NextToken(t).token);
    }
  }

  lemma ApplyKeepsBuffers(limits: Limits, c: Core, t: Token)
    requires c.pathBytes == NameBytes(c.path)
    ensures var p := Apply(limits, c, t);
            p.Progress? ==> p.core.audio == c.audio && p.core.meter == c.meter
  {
  }

  lemma SelectorYields(limits: Limits, c: Core, id: Int32)
    requires Idle(c) && limits.maxBufferedBytes >= 5
    ensures Yields(limits, c, [0xd7] + Escape(BeI32(id)), [], c.(selectedId := Some(id)))
  {
    var t := SelectorBytes(id);
    SelectorRoundTrip(id, []);
    assert t + [] == t;
    TokenYields(limits, c, t);
    EscapePlain([0xd7]);
    EscapeConcat([0xd7], BeI32(id));
  }

  /** A one-byte token that is not an escape. */
  lemma OpcodeYields(limits: Limits, c: Core, op: Byte)
    requires Idle(c) && limits.maxBufferedBytes >= 1
    requires op == 0xd8 || op == 0xda || op == 0xdc || op == 0xdd
    requires op == 0xd8 ==> c.selectedId.Some?
    ensures var p := Apply(limits, c, Tokenize([op]));
            p.Progress? && Yields(limits, c, [op], p.requests, p.core)
  {
    assert [op][..1] == [op];
    EscapePlain([op]);
    TokenYields(limits, c, [op]);
  }

  lemma IdMessageYields(limits: Limits, c: Core, id: Int32, suffix: seq<Byte>,
                        requests: seq<Request>, after: Core)
    requires Idle(c) && limits.maxBufferedBytes >= 5
    requires Yields(limits, c.(selectedId := Some(id)), suffix, requests, after)
    ensures Yields(limits, c, IdMessage(id, suffix), requests, after)
  {
    SelectorYields(limits, c, id);
    YieldsConcat(limits, c, [0xd7] + Escape(BeI32(id)), [], c.(selectedId := Some(id)),
                 suffix, requests, after);
    assert [] + requests == requests;
  }

  lemma SetYields(limits: Limits, c: Core, id: Int32, value: NativeValue)
    requires Idle(c) && Roomy(limits) && Encodable(value)
    ensures Yields(limits, c, MessageBytes(SetNode(id, value)), [Set(id, value)],
                   c.(selectedId := Some(id)))
  {
    var t := EncodeValue(value).value;
    var selected := c.(selectedId := Some(id));
    ValueRoundTrip(value, []);
    assert t + [] == t;
    assert Apply(limits, selected, TokenOf(value)) == Progress(selected, [Set(id, value)]);
    TokenYields(limits, selected, t);
    IdMessageYields(limits, c, id, Escape(t), [Set(id, value)], selected);
  }

  lemma RequestYields(limits: Limits, c: Core, id: Int32, op: Byte)
    requires Idle(c) && Roomy(limits)
    requires op == 0xd8 || ((op == 0xdc || op == 0xdd) && id != 0)
    ensures var selected := c.(selectedId := Some(id));
            Yields(limits, c, IdMessage(id, [op]),
                   [if op == 0xd8 then Toggle(id) else if op == 0xdc then Get(id) else Definition(id)],
                   selected)
  {
    hide Run, Deframe, IdMessage, NameBytes;
    var selected := c.(selectedId := Some(id));
    OpcodeYields(limits, selected, op);
    var p := Apply(limits, selected, Tokenize([op]));
    IdMessageYields(limits, c, id, [op], p.requests, p.core);
  }

  lemma GoRootYields(limits: Limits, c: Core)
    requires Idle(c) && Roomy(limits)
    ensures Yields(limits, c, [0xda], [], c.(selectedId := None, path := [], pathBytes := 0))
  {
    OpcodeYields(limits, c, 0xda);
  }

  lemma BulkYields(limits: Limits, c: Core, op: Byte)
    requires Idle(c) && Roomy(limits) && (op == 0xdc || op == 0xdd) && c.selectedId.None?
    ensures Yields(limits, c, [op], [if op == 0xdc then BulkData(c.path) else BulkDefinition(c.path)], c)
  {
    OpcodeYields(limits, c, op);
  }

  /** The request for node 0 goes to the root first and asks for everything under it. */
  lemma RootRequestYields(limits: Limits, c: Core, op: Byte)
    requires Idle(c) && Roomy(limits) && (op == 0xdc || op == 0xdd)
    ensures Yields(limits, c, [0xda, op], [if op == 0xdc then BulkData([]) else BulkDefinition([])],
                   c.(selectedId := None, path := [], pathBytes := 0))
  {
    hide Yields;
    var root := c.(selectedId := None, path := [], pathBytes := 0);
    var requests := [if op == 0xdc then BulkData([]) else BulkDefinition([])];
    GoRootYields(limits, c);
    BulkYields(limits, root, op);
    YieldsConcat(limits, c, [0xda], [], root, [op], requests, root);
    assert [0xda] + [op] == [0xda, op] && [] + requests == requests;
  }

  // ---------- metering messages ----------

  /** Bytes that only accumulate in the metering buffer. */
  lemma {:induction false} MeterAccumulates(limits: Limits, c: Core, bytes: seq<Byte>)
    requires c.audio == [] && c.pathBytes == NameBytes(c.path)
    requires |c.meter| + |bytes| <= limits.maxBufferedBytes
    requires forall k :: |c.meter| < k <= |c.meter| + |bytes| ==>
               ParseMeterOnce(limits, c.(meter := (c.meter + bytes)[..k])).Progress?
               && ParseMeterOnce(limits, c.(meter := (c.meter + bytes)[..k])).requests == []
    ensures Run(limits, c, DataOn(3, bytes)) == Progress(c.(meter := c.meter + bytes), [])
    decreases |bytes|
  {
    if bytes == [] {
      assert c.meter + bytes == c.meter;
    } else {
      var all := c.meter + bytes;
      var grown := c.(meter := c.meter + [bytes[0]]);
      assert all[..|c.meter| + 1] == grown.meter;
      assert Handle(limits, c, Data(3, bytes[0])) == Progress(grown, []);
      assert grown.meter + bytes[1..] == all;
      MeterAccumulates(limits, grown, bytes[1..]);
      assert DataOn(3, bytes)[1..] == DataOn(3, bytes[1..]);
      BeforeNothing(Run(limits, grown, DataOn(3, bytes[1..])));
    }
  }

  /** The byte that completes a metering request. */
  lemma MeterCompletes(limits: Limits, c: Core, b: Byte)
    requires c.audio == [] && c.pathBytes == NameBytes(c.path)
    requires |c.meter| < limits.maxBufferedBytes
    requires ParseMeterOnce(limits, c.(meter := c.meter + [b])).Progress?
    requires ParseMeterOnce(limits, c.(meter := c.meter + [b])).core.meter == []
    requires ParseMeterOnce(limits, c.(meter := c.meter + [b])).requests != []
    ensures Run(limits, c, DataOn(3, [b])) == ParseMeterOnce(limits, c.(meter := c.meter + [b]))
  {
    var p := ParseMeterOnce(limits, c.(meter := c.meter + [b]));
    DrainEmpty(limits, p.core);
    assert p.requests + [] == p.requests;
    assert DataOn(3, [b]) == [Data(3, b)];
  }

  lemma PortRun(limits: Limits, c: Core, port: U16)
    requires Idle(c) && Roomy(limits)
    ensures Run(limits, c, DataOn(3, [0xd3] + Be16(port)))
         == Progress(c.(meterPort := Some(port)), [MeterPort(port)])
  {
    hide DataOn, Run, NameBytes, BoundedEntries;
    var bytes := [0xd3] + Be16(port);
    MeterAccumulates(limits, c, bytes[..2]);
    var at := c.(meter := bytes[..2]);
    assert [] + bytes[..2] == bytes[..2];
    assert bytes[..2] + [bytes[2]] == bytes && bytes[1..3] == Be16(port) && bytes[3..] == [];
    Be16RoundTrip(port);
    MeterCompletes(limits, at, bytes[2]);
    DataOnConcat(3, bytes[..2], [bytes[2]]);
    RunConcat(limits, c, DataOn(3, bytes[..2]), DataOn(3, [bytes[2]]));
    assert [] + [MeterPort(port)] == [MeterPort(port)];
  }

  function ReportBytes(meterId: U16, port: U16): (r: seq<Byte>)
    ensures |r| == 5
  {
    [0xd4] + (Be16(meterId) + Be16(port))
  }

  lemma ReportReads(meterId: U16, port: U16)
    ensures ReportBytes(meterId, port)[0] == 0xd4
    ensures FromBe32(ReportBytes(meterId, port)[1..5]) == ReportId(meterId, port)
  {
    assert ReportBytes(meterId, port)[1..5] == Be32(ReportId(meterId, port));
    Be32RoundTrip(ReportId(meterId, port));
  }

  lemma ReportRun(limits: Limits, c: Core, meterId: U16, port: U16)
    requires Idle(c) && Roomy(limits)
    ensures Run(limits, c, DataOn(3, ReportBytes(meterId, port)))
         == Progress(c.(meter := ReportBytes(meterId, port)), [])
    ensures FromBe32(ReportBytes(meterId, port)[1..5]) == ReportId(meterId, port)
  {
    var bytes := ReportBytes(meterId, port);
    ReportReads(meterId, port);
    hide ReportBytes, Run, DataOn, FromBe32, Be32;
    assert c.meter + bytes == bytes;
    MeterAccumulates(limits, c, bytes);
  }

  /** The open collection: report id, then entries, with no end byte yet. */
  lemma CollectionRun(limits: Limits, c: Core, report: seq<Byte>, entries: seq<Byte>)
    requires c.audio == [] && c.pathBytes == NameBytes(c.path) && c.meter == report
    requires |report| == 5 && report[0] == 0xd4
    requires forall b :: b in entries ==> b <= 0xaf
    requires 6 + |entries| <= limits.maxBufferedBytes
    ensures Run(limits, c, DataOn(3, [0xdc] + entries))
         == Progress(c.(meter := report + ([0xdc] + entries)), [])
  {
    var body := [0xdc] + entries;
    var full := report + body;
    forall k | |report| < k <= |full|
      ensures ParseMeterOnce(limits, c.(meter := full[..k])).Progress?
      ensures ParseMeterOnce(limits, c.(meter := full[..k])).requests == []
    {
      var m := full[..k];
      assert m[0] == 0xd4 && m[5] == 0xdc && |m| >= 6;
      if k > 6 {
        assert m[k - 1] == entries[k - 7] && entries[k - 7] in entries;
      }
    }
    MeterAccumulates(limits, c, body);
  }

  /** What the end byte makes of an open collection. */
  lemma CollectionCloses(limits: Limits, c: Core, report: seq<Byte>, entries: seq<Byte>, meters: seq<Meter>)
    requires |report| == 5 && report[0] == 0xd4 && c.meterPort.Some?
    requires BoundedEntries(entries, limits.maxMeterEntries) == Ok(meters)
    ensures ParseMeterOnce(limits, c.(meter := report + ([0xdc] + entries) + [0xde]))
         == Progress(c.(meter := []), [MeterSubscribe(c.meterPort.value, FromBe32(report[1..]), meters)])
  {
    hide BoundedEntries, FromBe32;
    var closed := report + ([0xdc] + entries) + [0xde];
    assert closed[6..|closed| - 1] == entries && closed[1..5] == report[1..];
    assert closed[0] == 0xd4 && closed[5] == 0xdc && closed[|closed| - 1] == 0xde;
  }

  lemma SubscribeRun(limits: Limits, c: Core, meterId: U16, port: U16, meters: seq<Meter>)
    requires Idle(c) && Roomy(limits) && c.meterPort == Some(port)
    requires forall x :: x in meters ==> Requestable(x)
    requires |meters| <= limits.maxMeterEntries
    ensures Run(limits, c, DataOn(3, ReportBytes(meterId, port) + ([0xdc] + EntriesBytes(meters)) + [0xde]))
         == Progress(c, [MeterSubscribe(port, ReportId(meterId, port), meters)])
  {
    hide ParseMeterOnce, Handle;
    var report, body := ReportBytes(meterId, port), [0xdc] + EntriesBytes(meters);
    var subscribe := [MeterSubscribe(port, ReportId(meterId, port), meters)];
    EntriesPlain(meters);
    ReportRun(limits, c, meterId, port);
    var reported, open := c.(meter := report), c.(meter := report + body);
    CollectionRun(limits, reported, report, EntriesBytes(meters));
    EntriesRoundTrip(None, meters);
    CollectionCloses(limits, c, report, EntriesBytes(meters), meters);
    assert report[1..] == report[1..5];
    MeterCompletes(limits, open, 0xde);
    RunConcat(limits, c, DataOn(3, report), DataOn(3, body));
    DataOnConcat(3, report, body);
    RunConcat(limits, c, DataOn(3, report + body), DataOn(3, [0xde]));
    DataOnConcat(3, report + body, [0xde]);
    assert [] + ([] + subscribe) == subscribe;
  }

  /** A metering message: select channel 3, some payload, select channel 1. */
  lemma MeterFrame(limits: Limits, c: Core, payload: seq<Byte>, requests: seq<Request>, mid: Core, after: Core)
    requires Idle(c) && Idle(after)
    requires Run(limits, c, DataOn(3, payload)) == Progress(mid, requests)
    requires FlushRenewal(mid).Progress? && FlushRenewal(mid).core == after
    ensures Yields(limits, c, [0xdf, 0xd3] + Escape(payload) + [0xdf, 0xd1],
                   [KeepAlive(3)] + requests + (FlushRenewal(mid).requests + [KeepAlive(1)]), after)
  {
    var wire := [0xdf, 0xd3] + Escape(payload) + [0xdf, 0xd1];
    var open, data, close := [Selected(3)], DataOn(3, payload), [Selected(1)];
    MeterFraming(payload);
    hide Handle, FlushRenewal;
    RunKeepsPathBytes(limits, c, data);
    OpenRun(limits, c);
    CloseRun(limits, mid);
    RunConcat(limits, c, open, data);
    RunConcat(limits, c, open + data, close);
  }

  lemma MeterFraming(payload: seq<Byte>)
    ensures Deframe(OnChannel(1), [0xdf, 0xd3] + Escape(payload) + [0xdf, 0xd1])
         == Framed(OnChannel(1), [Selected(3)] + DataOn(3, payload) + [Selected(1)])
  {
    FrameRoundTrip(OnChannel(1), 3, payload);
    FrameRoundTrip(OnChannel(3), 1, []);
    DeframeConcat(OnChannel(1), SelectChannel(3) + Escape(payload), SelectChannel(1));
    assert SelectChannel(1) + Escape([]) == SelectChannel(1);
    assert [Selected(1)] + DataOn(1, []) == [Selected(1)];
  }

  lemma OpenRun(limits: Limits, c: Core)
    requires Idle(c)
    ensures Run(limits, c, [Selected(3)]) == Progress(c, [KeepAlive(3)])
  {
    assert [Selected(3)][1..] == [] && [] + [KeepAlive(3)] == [KeepAlive(3)] == [KeepAlive(3)] + [];
  }

  lemma CloseRun(limits: Limits, c: Core)
    requires FlushRenewal(c).Progress? && c.pathBytes == NameBytes(c.path)
    ensures Run(limits, c, [Selected(1)])
         == Progress(FlushRenewal(c).core, FlushRenewal(c).requests + [KeepAlive(1)])
  {
    var flushed := FlushRenewal(c).requests + [KeepAlive(1)];
    HandleKeepsPathBytes(limits, c, Selected(1));
    assert [Selected(1)][1..] == [] && flushed + [] == flushed;
  }

  lemma SubscribeYields(limits: Limits, c: Core, m: Message)
    requires Idle(c) && Roomy(limits) && m.SubscribeMeters? && Sendable(m) && WithinLimits(limits, m)
    ensures Yields(limits, c, MessageBytes(m), Expected(m), c.(meterPort := Some(m.port)))
  {
    hide Run, DataOn, Deframe, Escape, NameBytes, EntriesBytes, MessageBytes;
    var after := c.(meterPort := Some(m.port));
    var p1 := [0xd3] + Be16(m.port);
    var p2 := ReportBytes(m.meterId, m.port) + ([0xdc] + EntriesBytes(m.meters)) + [0xde];
    PortRun(limits, c, m.port);
    SubscribeRun(limits, after, m.meterId, m.port, m.meters);
    DataOnConcat(3, p1, p2);
    RunConcat(limits, c, DataOn(3, p1), DataOn(3, p2));
    var requests := [MeterPort(m.port)]
                    + [MeterSubscribe(m.port, ReportId(m.meterId, m.port), m.meters)];
    MeterFrame(limits, c, p1 + p2, requests, after, after);
    SubscribeLayout(m);
    assert [KeepAlive(3)] + requests + ([] + [KeepAlive(1)]) == Expected(m);
  }

  lemma SubscribeLayout(m: Message)
    requires m.SubscribeMeters? && Sendable(m)
    ensures MessageBytes(m) ==
            [0xdf, 0xd3] + Escape([0xd3] + Be16(m.port)
                                  + (ReportBytes(m.meterId, m.port) + ([0xdc] + EntriesBytes(m.meters)) + [0xde]))
            + [0xdf, 0xd1]
  {
    var port, id, entries := Be16(m.port), Be16(m.meterId), EntriesBytes(m.meters);
    EscapeConcat(id, port);
    EscapeAfter(0xd3, port);
    EscapeAfter(0xd4, id + port);
    EscapeAfter(0xdc, entries);
    EscapeAfter(0xde, []);
    assert [0xde] + [] == [0xde];
    var report := ReportBytes(m.meterId, m.port);
    EscapeConcat(report, [0xdc] + entries);
    EscapeConcat(report + ([0xdc] + entries), [0xde]);
    EscapeConcat([0xd3] + port, report + ([0xdc] + entries) + [0xde]);
    Regroup(Escape(port), Escape(id), Escape(entries));
  }

  lemma Regroup(port: seq<Byte>, id: seq<Byte>, entries: seq<Byte>)
    ensures [0xdf, 0xd3, 0xd3] + port + [0xd4] + id + port + [0xdc] + entries + [0xde] + [0xdf, 0xd1]
         == [0xdf, 0xd3]
            + ([0xd3] + port + (([0xd4] + (id + port)) + ([0xdc] + entries) + ([0xde] + [])))
            + [0xdf, 0xd1]
  {
  }

  lemma RenewLayout(meterId: U16, port: U16)
    ensures MessageBytes(RenewMeters(meterId, port))
         == [0xdf, 0xd3] + Escape(ReportBytes(meterId, port)) + [0xdf, 0xd1]
  {
    EscapeConcat(Be16(meterId), Be16(port));
    EscapeAfter(0xd4, Be16(meterId) + Be16(port));
    hide Escape, Be16;
    var a, b := Escape(Be16(meterId)), Escape(Be16(port));
    assert [0xdf, 0xd3, 0xd4] + a + b + [0xdf, 0xd1] == [0xdf, 0xd3] + ([0xd4] + (a + b)) + [0xdf, 0xd1];
  }

  lemma EscapeAfter(op: Byte, payload: seq<Byte>)
    requires op != ESCAPE
    ensures Escape([op] + payload) == [op] + Escape(payload)
  {
    assert ([op] + payload)[1..] == payload;
  }

  lemma RenewYields(limits: Limits, c: Core, meterId: U16, port: U16)
    requires Idle(c) && Roomy(limits)
    ensures var m := RenewMeters(meterId, port); Yields(limits, c, MessageBytes(m), Expected(m), c)
  {
    hide Yields;
    var m := RenewMeters(meterId, port);
    var payload := ReportBytes(meterId, port);
    ReportRun(limits, c, meterId, port);
    var mid := c.(meter := payload);
    assert payload[1..] == payload[1..5];
    MeterFrame(limits, c, payload, [], mid, c);
    RenewLayout(meterId, port);
    assert [KeepAlive(3)] + [] + ([MeterRenew(ReportId(meterId, port))] + [KeepAlive(1)]) == Expected(m);
  }

  lemma KeepAliveYields(limits: Limits, c: Core)
    requires Idle(c)
    ensures Yields(limits, c, MessageBytes(KeepDataAlive), Expected(KeepDataAlive), c)
  {
    FrameRoundTrip(OnChannel(1), 1, []);
    assert SelectChannel(1) + Escape([]) == [0xdf, 0xd1];
    var select := [Selected(1)];
    assert select + DataOn(1, []) == select && select[1..] == [];
    assert [] + [KeepAlive(1)] == [KeepAlive(1)];
  }

  // ---------- main results ----------

  /** Any one message decodes to exactly its requests and leaves the decoder idle. */
  lemma MessageRoundTrip(limits: Limits, c: Core, m: Message) returns (after: Core)
    requires Idle(c) && Roomy(limits) && Sendable(m) && WithinLimits(limits, m)
    ensures Yields(limits, c, MessageBytes(m), Expected(m), after)
  {
    match m
    case SetNode(id, value) =>
      SetYields(limits, c, id, value);
      after := c.(selectedId := Some(id));
    case ToggleNode(id) =>
      RequestYields(limits, c, id, 0xd8);
      after := c.(selectedId := Some(id));
    case RequestData(id) =>
      if id == 0 { RootRequestYields(limits, c, 0xdc); } else { RequestYields(limits, c, id, 0xdc); }
      after := if id == 0 then c.(selectedId := None, path := [], pathBytes := 0)
               else c.(selectedId := Some(id));
    case RequestDefinition(id) =>
      if id == 0 { RootRequestYields(limits, c, 0xdd); } else { RequestYields(limits, c, id, 0xdd); }
      after := if id == 0 then c.(selectedId := None, path := [], pathBytes := 0)
               else c.(selectedId := Some(id));
    case KeepDataAlive =>
      KeepAliveYields(limits, c);
      after := c;
    case SubscribeMeters(_, port, _) =>
      SubscribeYields(limits, c, m);
      after := c.(meterPort := Some(port));
    case RenewMeters(meterId, port) =>
      RenewYields(limits, c, meterId, port);
      after := c;
  }

  /** Any concatenation of client messages decodes to the concatenation of their requests. */
  lemma {:induction false} StreamRoundTrip(limits: Limits, c: Core, messages: seq<Message>)
    returns (after: Core)
    requires Idle(c) && Roomy(limits) && AllSendable(messages)
    requires forall m :: m in messages ==> WithinLimits(limits, m)
    ensures Yields(limits, c, StreamBytes(messages), AllExpected(messages), after)
    decreases |messages|
  {
    if messages == [] {
      after := c;
    } else {
      assert messages[0] in messages && forall m :: m in messages[1..] ==> m in messages;
      var mid := MessageRoundTrip(limits, c, messages[0]);
      after := StreamRoundTrip(limits, mid, messages[1..]);
      YieldsConcat(limits, c, MessageBytes(messages[0]), Expected(messages[0]), mid,
                   StreamBytes(messages[1..]), AllExpected(messages[1..]), after);
    }
  }

  /** A server with default limits that has selected channel 1 and holds nothing buffered
      reads any client stream, cut into any fragments, as exactly the requests it stands for.
      It refuses a fragment only if that fragment alone exceeds the batch limit. */
  lemma ClientToServer(c: Core, messages: seq<Message>, fragments: seq<seq<Byte>>)
    requires Idle(c) && AllSendable(messages)
    requires forall m :: m in messages ==> WithinLimits(DEFAULT_LIMITS, m)
    requires Flatten(fragments) == StreamBytes(messages)
    ensures var p := PushPieces(DEFAULT_LIMITS, OnChannel(1), c, fragments);
            && (p.Accepted? <==> EachPushFits(DEFAULT_LIMITS, OnChannel(1), c, fragments))
            && (p.Accepted? ==>
                  p.requests == AllExpected(messages) && p.frame == OnChannel(1) && Idle(p.core))
    ensures |AllExpected(messages)| <= DEFAULT_LIMITS.maxBatchRequests ==>
              EachPushFits(DEFAULT_LIMITS, OnChannel(1), c, fragments)
  {
    var after := StreamRoundTrip(DEFAULT_LIMITS, c, messages);
    PiecesExact(DEFAULT_LIMITS, OnChannel(1), c, fragments);
  }
}
