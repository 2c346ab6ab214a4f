/** The bounded, incremental decoder for client-to-console requests. */
module Requests {
  import opened Basics
  import opened Utf8
  import opened Framing
  import opened Tokens
  import opened Meters

  datatype Limits = Limits(
    maxBufferedBytes: nat,
    maxStringBytes: nat,
    maxPathElements: nat,
    maxPathBytes: nat,
    maxBatchRequests: nat,
    maxMeterEntries: nat)

  const DEFAULT_LIMITS := Limits(64 * 1024, 256, 256, 4096, 4096, 512)

  datatype PathElement =
    | Name(name: Text)
    | Index(index: U32)

  datatype Request =
    | KeepAlive(channel: Byte)
    | Get(id: Int32)
    | Definition(id: Int32)
    | Set(id: Int32, value: NativeValue)
    | Toggle(id: Int32)
    | StepBy(id: Int32, amount: int)
    | BulkData(path: seq<PathElement>)
    | BulkDefinition(path: seq<PathElement>)
    | MeterPort(port: U16)
    | MeterSubscribe(port: U16, reportId: U32, meters: seq<Meter>)
    | MeterRenew(reportId: U32)
    | Unknown(channel: Byte, opcode: Byte)

  /** The decoder's state behind the framing layer. */
  datatype Core = Core(
    audio: seq<Byte>,
    meter: seq<Byte>,
    selectedId: Option<Int32>,
    path: seq<PathElement>,
    pathBytes: nat,
    meterPort: Option<U16>)

  const INITIAL := Core([], [], None, [], 0, None)

  datatype Progress =
    | Progress(core: Core, requests: seq<Request>)
    | Rejected

  function Before(requests: seq<Request>, rest: Progress): Progress {
    if rest.Progress? then rest.(requests := requests + rest.requests) else rest
  }

  lemma BeforeTwice(a: seq<Request>, b: seq<Request>, rest: Progress)
    ensures Before(a, Before(b, rest)) == Before(a + b, rest)
  {
    if rest.Progress? {
      assert a + (b + rest.requests) == (a + b) + rest.requests;
    }
  }

  lemma BeforeNothing(rest: Progress)
    ensures Before([], rest) == rest
  {
    if rest.Progress? {
      assert [] + rest.requests == rest.requests;
    }
  }

  // ---------- specification: what one token does ----------

  function NameLength(e: PathElement): nat {
    if e.Name? then |e.name| else 0
  }

  function NameBytes(path: seq<PathElement>): nat {
    if path == [] then 0
    else NameBytes(path[..|path| - 1]) + NameLength(path[|path| - 1])
  }

  predicate PathRoom(limits: Limits, c: Core, nameBytes: nat) {
    |c.path| < limits.maxPathElements && c.pathBytes + nameBytes <= limits.maxPathBytes
  }

  function SignedByte(b: Byte): int {
    if b >= 0x80 then b as int - 0x100 else b as int
  }

  function SetSelected(c: Core, value: Option<NativeValue>): Progress {
    if c.selectedId.None? || value.None? then Rejected
    else Progress(c, [Set(c.selectedId.value, value.value)])
  }

  /** A token's meaning for the request stream. */
  function Apply(limits: Limits, c: Core, t: Token): Progress
    requires c.pathBytes == NameBytes(c.path)
  {
    match t
    case PathIndex(i) =>
      if PathRoom(limits, c, 0) then Progress(c.(path := c.path + [Index(i)]), []) else Rejected
    case PathName(bytes) =>
      if PathRoom(limits, c, |bytes|) && ValidUtf8(bytes) then
        Progress(c.(path := c.path + [Name(bytes)], pathBytes := c.pathBytes + |bytes|), [])
      else Rejected
    case SelectId(id) => Progress(c.(selectedId := Some(id)), [])
    case GoRoot => Progress(c.(selectedId := None, path := [], pathBytes := 0), [])
    case GoUp =>
      if c.path == [] then Progress(c.(selectedId := None), [])
      else
        Progress(c.(selectedId := None,
                    path := c.path[..|c.path| - 1],
                    pathBytes := c.pathBytes - NameLength(c.path[|c.path| - 1])), [])
    case WantData =>
      Progress(c, [if c.selectedId.Some? then Get(c.selectedId.value) else BulkData(c.path)])
    case WantDefinition =>
      Progress(c, [if c.selectedId.Some? then Definition(c.selectedId.value)
                   else BulkDefinition(c.path)])
    case Other(op) => Progress(c, [Unknown(1, op)])
    case Click =>
      if c.selectedId.None? then Rejected else Progress(c, [Toggle(c.selectedId.value)])
    case Step(amount) =>
      if c.selectedId.None? then Rejected
      else Progress(c, [StepBy(c.selectedId.value, SignedByte(amount))])
    case Num(n) => SetSelected(c, ValueOf(t))
    case Real(bits, raw) => SetSelected(c, ValueOf(t))
    case Chars(bytes) =>
      if |bytes| > limits.maxStringBytes then Rejected else SetSelected(c, ValueOf(t))
  }

  function OverLimit(limits: Limits, c: Core): bool {
    |c.audio| + |c.meter| > limits.maxBufferedBytes
  }

  function AudioByte(limits: Limits, c: Core, b: Byte): Progress
    requires c.pathBytes == NameBytes(c.path)
  {
    var grown := c.(audio := c.audio + [b]);
    if OverLimit(limits, grown) then Rejected
    else
      match NextToken(grown.audio)
      case Partial => Progress(grown, [])
      case Complete(t, size) => Apply(limits, grown.(audio := grown.audio[size..]), t)
  }

  // ---------- specification: the metering channel ----------

  /** At most one request from the front of the metering buffer. */
  function ParseMeterOnce(limits: Limits, c: Core): (p: Progress)
    ensures p.Progress? ==> |p.requests| <= 1 && |p.core.meter| <= |c.meter|
    ensures p.Progress? && p.requests != [] ==> |p.core.meter| < |c.meter|
    ensures p.Progress? ==> p.core == c.(meter := p.core.meter, meterPort := p.core.meterPort)
    ensures p.Progress? && p.requests == [] ==> p.core == c
  {
    var m := c.meter;
    if m == [] then Progress(c, [])
    else if m[0] == 0xd3 then
      if |m| < 3 then Progress(c, [])
      else
        var port := FromBe16(m[1..3]);
        Progress(c.(meter := m[3..], meterPort := Some(port)), [MeterPort(port)])
    else if m[0] == 0xd4 then
      if |m| < 6 then Progress(c, [])
      else
        var reportId := FromBe32(m[1..5]);
        if m[5] != 0xdc then Progress(c.(meter := m[5..]), [MeterRenew(reportId)])
        else if |m| < 7 || m[|m| - 1] != 0xde then Progress(c, [])
        else
          var entries := BoundedEntries(m[6..|m| - 1], limits.maxMeterEntries);
          if entries.Err? || c.meterPort.None? then Rejected
          else
            Progress(c.(meter := []), [MeterSubscribe(c.meterPort.value, reportId, entries.value)])
    else Progress(c.(meter := m[1..]), [Unknown(3, m[0])])
  }

  function DrainMeter(limits: Limits, c: Core): Progress
    decreases |c.meter|
  {
    var p := ParseMeterOnce(limits, c);
    if p.Rejected? || p.requests == [] then p
    else Before(p.requests, DrainMeter(limits, p.core))
  }

  function MeterByte(limits: Limits, c: Core, b: Byte): Progress {
    var grown := c.(meter := c.meter + [b]);
    if OverLimit(limits, grown) then Rejected else DrainMeter(limits, grown)
  }

  /** A renewal has no end of its own: a channel select, or an idle boundary the caller knows
      about, ends it. */
  function FlushRenewal(c: Core): Progress {
    if c.meter == [] then Progress(c, [])
    else if |c.meter| == 5 && c.meter[0] == 0xd4 then
      Progress(c.(meter := []), [MeterRenew(FromBe32(c.meter[1..]))])
    else Rejected
  }

  // ---------- specification: the whole stream ----------

  function Handle(limits: Limits, c: Core, e: ChannelEvent): Progress
    requires c.pathBytes == NameBytes(c.path)
  {
    match e
    case Selected(channel) =>
      var p := FlushRenewal(c);
      if p.Rejected? then p else p.(requests := p.requests + [KeepAlive(channel)])
    case Data(channel, b) =>
      if channel == 1 then AudioByte(limits, c, b)
      else if channel == 3 then MeterByte(limits, c, b)
      else Progress(c, [Unknown(channel, b)])
  }

  lemma NameBytesPush(path: seq<PathElement>, e: PathElement)
    ensures NameBytes(path + [e]) == NameBytes(path) + NameLength(e)
  {
    assert (path + [e])[..|path|] == path;
  }

  lemma NameBytesDrop(path: seq<PathElement>)
    ensures NameBytes([]) == 0
    ensures path != [] ==> NameBytes(path[..|path| - 1]) == NameBytes(path) - NameLength(path[|path| - 1])
  {
  }

  lemma ApplyKeepsPathBytes(limits: Limits, c: Core, t: Token)
    requires c.pathBytes == NameBytes(c.path)
    ensures var p := Apply(limits, c, t);
            p.Progress? ==> p.core.pathBytes == NameBytes(p.core.path)
  {
    hide NameBytes, ValidUtf8, ValueOf;
    NameBytesDrop(c.path);
    match t
    case PathIndex(i) => NameBytesPush(c.path, Index(i));
    case PathName(bytes) => if ValidUtf8(bytes) { NameBytesPush(c.path, Name(bytes)); }
    case _ =>
  }

  lemma {:induction false} DrainMeterFrame(limits: Limits, c: Core)
    ensures var p := DrainMeter(limits, c);
            p.Progress? ==> p.core == c.(meter := p.core.meter, meterPort := p.core.meterPort)
    decreases |c.meter|
  {
    var p := ParseMeterOnce(limits, c);
    if p.Progress? && p.requests != [] {
      DrainMeterFrame(limits, p.core);
    }
  }

  lemma HandleKeepsPathBytes(limits: Limits, c: Core, e: ChannelEvent)
    requires c.pathBytes == NameBytes(c.path)
    ensures var p := Handle(limits, c, e);
            p.Progress? ==> p.core.pathBytes == NameBytes(p.core.path)
  {
    if e.Data? && e.channel == 1 {
      var grown := c.(audio := c.audio + [e.value]);
      if NextToken(grown.audio).Complete? {
        var next := NextToken(grown.audio);
        ApplyKeepsPathBytes(limits, grown.(audio := grown.audio[next.size..]), next.token);
      }
    } else if e.Data? && e.channel == 3 {
      DrainMeterFrame(limits, c.(meter := c.meter + [e.value]));
    }
  }

  function Run(limits: Limits, c: Core, events: seq<ChannelEvent>): Progress
    requires c.pathBytes == NameBytes(c.path)
    decreases |events|
  {
    if events == [] then Progress(c, [])
    else
      var p := Handle(limits, c, events[0]);
      HandleKeepsPathBytes(limits, c, events[0]);
      if p.Rejected? then p else Before(p.requests, Run(limits, p.core, events[1..]))
  }

  lemma {:induction false} RunKeepsPathBytes(limits: Limits, c: Core, events: seq<ChannelEvent>)
    requires c.pathBytes == NameBytes(c.path)
    ensures var p := Run(limits, c, events);
            p.Progress? ==> p.core.pathBytes == NameBytes(p.core.path)
    decreases |events|
  {
    if events != [] {
      HandleKeepsPathBytes(limits, c, events[0]);
      var p := Handle(limits, c, events[0]);
      if p.Progress? {
        RunKeepsPathBytes(limits, p.core, events[1..]);
      }
    }
  }

  datatype Pushed =
    | Accepted(frame: FrameState, core: Core, requests: seq<Request>)
    | Refused

  /** One `push`: unescape the fragment, run it, and accept it whole or not at all. */
  function PushAll(limits: Limits, f: FrameState, c: Core, input: seq<Byte>): Pushed
    requires c.pathBytes == NameBytes(c.path)
  {
    match Deframe(f, input)
    case Broken(_) => Refused
    case Framed(f', events) =>
      match Run(limits, c, events)
      case Rejected => Refused
      case Progress(c', requests) =>
        if |requests| <= limits.maxBatchRequests then Accepted(f', c', requests) else Refused
  }

  // ---------- invariants ----------

  /** What the metering buffer can hold between bytes: an unfinished port, an unfinished or
      undecided report id, or a collection in which no end byte has been seen. */
  predicate MeterShape(m: seq<Byte>) {
    || m == []
    || (m[0] == 0xd3 && |m| < 3)
    || (m[0] == 0xd4 && (|m| < 6 || (m[5] == 0xdc && 0xde !in m[6..])))
  }

  predicate Inv(limits: Limits, c: Core) {
    && NextToken(c.audio).Partial?
    && |c.audio| + |c.meter| <= limits.maxBufferedBytes
    && c.pathBytes == NameBytes(c.path)
    && |c.path| <= limits.maxPathElements
    && c.pathBytes <= limits.maxPathBytes
    && MeterShape(c.meter)
  }
}
