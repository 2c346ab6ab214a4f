/** The request decoder as the program runs it: buffers that grow byte by byte and are drained
    in place. Every method is proved against the stream functions of `Requests`. */
module RequestDecoder {
  import opened Basics
  import opened Utf8
  import opened Framing
  import opened Tokens
  import opened Meters
  import opened Requests
  import opened RequestLaws

  class NativeRequestDecoder {
    const channels: ChannelDecoder
    const limits: Limits
    var audio: seq<Byte>
    var meter: seq<Byte>
    var selectedId: Option<Int32>
    var path: seq<PathElement>
    var pathBytes: nat
    var meterPort: Option<U16>

    function State(): Core
      reads this
    {
      Core(audio, meter, selectedId, path, pathBytes, meterPort)
    }

    predicate Valid()
      reads this
    {
      Inv(limits, State())
    }

    constructor (limits: Limits)
      ensures Valid() && State() == INITIAL && this.limits == limits
      ensures fresh(channels) && channels.State() == FrameState(false, None)
    {
      channels := new ChannelDecoder();
      this.limits := limits;
      audio, meter, selectedId, path, pathBytes, meterPort := [], [], None, [], 0, None;
    }

    method Reset()
      modifies this, channels
      ensures Valid() && State() == INITIAL && channels.State() == FrameState(false, None)
    {
      channels.Reset();
      audio, meter, selectedId, path, pathBytes, meterPort := [], [], None, [], 0, None;
    }

    /** Decode a fragment. Any error resets the decoder. */
    method Push(input: seq<Byte>) returns (r: Result<seq<Request>>)
      requires Valid()
      modifies this, channels
      ensures Valid()
      ensures match PushAll(limits, old(channels.State()), old(State()), input)
              case Accepted(f, c, requests) =>
                r == Ok(requests) && State() == c && channels.State() == f
              case Refused =>
                r == Err(InvalidData) && State() == INITIAL
                && channels.State() == FrameState(false, None)
    {
      r := PushEvents(input);
      if r.Err? {
        Reset();
      }
    }

    method PushEvents(input: seq<Byte>) returns (r: Result<seq<Request>>)
      requires Valid()
      modifies this, channels
      ensures match PushAll(limits, old(channels.State()), old(State()), input)
              case Accepted(f, c, requests) =>
                r == Ok(requests) && State() == c && channels.State() == f && Valid()
              case Refused => r == Err(InvalidData)
    {
      var decoded := channels.Push(input);
      if decoded.Err? {
        return Err(InvalidData);
      }
      var events := decoded.value;
      var requests := [];
      BeforeNothing(Run(limits, State(), events));
      assert events[0..] == events;
      for i := 0 to |events|
        invariant Valid() && |requests| <= limits.maxBatchRequests
        invariant channels.State() == Deframe(old(channels.State()), input).state
        invariant Run(limits, old(State()), events)
               == Before(requests, Run(limits, State(), events[i..]))
      {
        assert events[i..][0] == events[i] && events[i..][1..] == events[i + 1..];
        ghost var before := State();
        var next := PushEvent(events[i]);
        if next.Err? {
          return Err(InvalidData);
        }
        BeforeTwice(requests, next.value, Run(limits, State(), events[i + 1..]));
        requests := requests + next.value;
        if |requests| > limits.maxBatchRequests {
          return Err(InvalidData);
        }
      }
      assert events[|events|..] == [] && requests + [] == requests;
      return Ok(requests);
    }

    /** One event of the decoded stream. */
    method PushEvent(event: ChannelEvent) returns (r: Result<seq<Request>>)
      requires Valid()
      modifies this
      ensures match Handle(limits, old(State()), event)
              case Progress(c, requests) => r == Ok(requests) && State() == c && Valid()
              case Rejected => r == Err(InvalidData)
    {
      HandleInv(limits, State(), event);
      match event
      case Selected(channel) =>
        var flushed := FlushMeterRenewal();
        if flushed.Err? {
          return Err(InvalidData);
        }
        return Ok(flushed.value + [KeepAlive(channel)]);
      case Data(channel, byte) =>
        if channel == 1 {
          r := AudioData(byte);
        } else if channel == 3 {
          r := MeterData(byte);
        } else {
          return Ok([Unknown(channel, byte)]);
        }
    }

    /** A byte of parameter traffic: `audio` holds at most one incomplete token, so a drain
        leaves it empty or incomplete. */
    method AudioData(byte: Byte) returns (r: Result<seq<Request>>)
      requires Valid()
      modifies this
      ensures match AudioByte(limits, old(State()), byte)
              case Progress(c, requests) => r == Ok(requests) && State() == c
              case Rejected => r == Err(InvalidData)
    {
      GrownMeaning(byte);
      HandleKeepsPathBytes(limits, State(), Data(1, byte));
      audio := audio + [byte];
      if |audio| + |meter| > limits.maxBufferedBytes {
        return Err(InvalidData);
      }
      var requests: seq<Request> := [];
      var request := ParseAudio();
      while request.Ok? && request.value.Some?
        invariant request.Ok? && request.value.Some? ==> audio == [] && requests == []
        invariant match AudioByte(limits, old(State()), byte)
                  case Rejected => request == Err(InvalidData)
                  case Progress(c, all) =>
                    request.Ok? && State() == c && c.pathBytes == NameBytes(c.path)
                    && all == requests + (if request.value.Some? then [request.value.value] else [])
        decreases request.Ok? && request.value.Some?
      {
        requests := requests + [request.value.value];
        request := ParseAudio();
      }
      assert requests + [] == requests;
      return if request.Err? then Err(InvalidData) else Ok(requests);
    }

    lemma GrownMeaning(byte: Byte)
      requires Valid()
      ensures var grown := audio + [byte];
              && (NextToken(grown).Complete? ==> NextToken(grown).size == |grown|)
              && AudioByte(limits, State(), byte) ==
                 if |grown| + |meter| > limits.maxBufferedBytes then Rejected
                 else match NextToken(grown)
                      case Partial => Progress(State().(audio := grown), [])
                      case Complete(t, _) => Apply(limits, State().(audio := []), t)
    {
      var grown := audio + [byte];
      NextTokenGrows(audio, byte);
      assert grown[|grown|..] == [];
    }

    /** A byte of the metering channel. */
    method MeterData(byte: Byte) returns (r: Result<seq<Request>>)
      modifies this
      ensures match MeterByte(limits, old(State()), byte)
              case Progress(c, requests) => r == Ok(requests) && State() == c
              case Rejected => r == Err(InvalidData)
    {
      meter := meter + [byte];
      if |audio| + |meter| > limits.maxBufferedBytes {
        return Err(InvalidData);
      }
      r := DrainMeterBuffer();
    }

    method DrainMeterBuffer() returns (r: Result<seq<Request>>)
      modifies this
      ensures match DrainMeter(limits, old(State()))
              case Progress(c, requests) => r == Ok(requests) && State() == c
              case Rejected => r == Err(InvalidData)
    {
      hide ParseMeterOnce;
      var requests: seq<Request> := [];
      ghost var all := DrainMeter(limits, State());
      BeforeNothing(all);
      while true
        invariant all == Before(requests, DrainMeter(limits, State()))
        decreases |meter|
      {
        ghost var was := State();
        var request := ParseMeter();
        if request.Err? {
          return Err(InvalidData);
        }
        if request.value.None? {
          assert requests + [] == requests;
          return Ok(requests);
        }
        assert DrainMeter(limits, was) == Before([request.value.value], DrainMeter(limits, State()));
        BeforeTwice(requests, [request.value.value], DrainMeter(limits, State()));
        requests := requests + [request.value.value];
      }
    }

    /** Resolve a standalone renewal at a boundary known by the caller. */
    method Flush() returns (r: Result<seq<Request>>)
      requires Valid()
      modifies this
      ensures match FlushRenewal(old(State()))
              case Progress(c, requests) => r == Ok(requests) && State() == c
              case Rejected => r == Err(InvalidData) && State() == old(State())
      ensures Valid()
    {
      r := FlushMeterRenewal();
    }

    method Finish() returns (r: Result<()>)
      ensures r.Ok? <==> !channels.State().escaped && audio == [] && meter == []
    {
      var framing := channels.Finish();
      if framing.Err? {
        return framing;
      }
      return if audio == [] && meter == [] then Ok(()) else Err(InvalidData);
    }

    /** What the contents of the audio buffer amount to. */
    ghost function Meaning(): Progress
      requires State().pathBytes == NameBytes(State().path)
      reads this
    {
      match NextToken(audio)
      case Partial => Progress(State(), [])
      case Complete(t, _) => Apply(limits, State().(audio := []), t)
    }

    /** The buffer is empty, incomplete, or one whole token. */
    predicate OneToken()
      reads this
    {
      && State().pathBytes == NameBytes(State().path)
      && (NextToken(audio).Complete? ==> NextToken(audio).size == |audio|)
    }

    lemma WholeToken()
      requires NextToken(audio).Complete? ==> NextToken(audio).size == |audio|
      requires audio != []
      ensures NextToken(audio).Complete? <==> |audio| == TokenSize(audio)
      ensures NextToken(audio).Partial? <==> |audio| < TokenSize(audio)
      ensures |audio| == TokenSize(audio) ==> NextToken(audio).token == Tokenize(audio)
      ensures audio[|audio|..] == []
    {
      assert audio[..|audio|] == audio;
    }

    /** The request completed by the newest byte, if any. Navigation and selection tokens
        update the state and are followed by another look at what is left. */
    method ParseAudio() returns (r: Result<Option<Request>>)
      requires OneToken()
      modifies this
      ensures match old(Meaning())
              case Rejected => r == Err(InvalidData)
              case Progress(c, requests) =>
                State() == c
                && r == Ok(if requests == [] then None else Some(requests[0]))
                && |requests| <= 1
      ensures r.Ok? && r.value.Some? ==> audio == []
      decreases |audio|, 1
    {
      if audio == [] {
        return Ok(None);
      }
      var opcode := audio[0];
      if 0x40 <= opcode <= 0x7f || 0xc0 <= opcode <= 0xcf || opcode == 0xd2
         || opcode == 0xd7 || opcode == 0xda || opcode == 0xdb {
        if opcode <= 0x7f || opcode == 0xd2 {
          r := ParseIndexToken(opcode);
        } else if opcode <= 0xcf {
          r := ParseNameToken(opcode);
        } else {
          r := ParseSelection(opcode);
        }
      } else if opcode <= 0xd6 {
        r := ParseValue(opcode);
      } else {
        r := ParseOperation(opcode);
      }
    }

    /** A node index, in one byte or in three: it extends the path. */
    method ParseIndexToken(opcode: Byte) returns (r: Result<Option<Request>>)
      requires OneToken() && audio != [] && opcode == audio[0]
      requires 0x40 <= opcode <= 0x7f || opcode == 0xd2
      modifies this
      ensures match old(Meaning())
              case Rejected => r == Err(InvalidData)
              case Progress(c, requests) => State() == c && requests == [] && r == Ok(None)
      decreases |audio|, 0
    {
      IndexMeaning();
      var used, index := 1, opcode as int - 0x3f;
      if opcode == 0xd2 {
        if |audio| < 3 {
          return Ok(None);
        }
        used, index := 3, FromBe16(audio[1..3]) + 1;
      }
      var pushed := PushPathIndex(index);
      if pushed.Err? {
        return Err(InvalidData);
      }
      audio := audio[used..];
      r := ParseAudio();
    }

    lemma IndexMeaning()
      requires OneToken() && audio != []
      requires 0x40 <= audio[0] <= 0x7f || audio[0] == 0xd2
      ensures audio[0] == 0xd2 && |audio| < 3 ==> Meaning() == Progress(State(), [])
      ensures audio[0] <= 0x7f ==> |audio| == 1
      ensures audio[0] == 0xd2 ==> |audio| <= 3
      ensures audio[0] <= 0x7f || |audio| == 3 ==>
                var index := if audio[0] == 0xd2 then FromBe16(audio[1..3]) + 1 else audio[0] as int - 0x3f;
                Meaning() ==
                if PathRoom(limits, State(), 0)
                then Progress(State().(audio := [], path := path + [Index(index)]), [])
                else Rejected
    {
      WholeToken();
      if |audio| == 3 {
        assert audio[1..3] == audio[1..];
      }
    }

    /** A node name: it extends the path. */
    method ParseNameToken(opcode: Byte) returns (r: Result<Option<Request>>)
      requires OneToken() && audio != [] && opcode == audio[0]
      requires 0xc0 <= opcode <= 0xcf
      modifies this
      ensures match old(Meaning())
              case Rejected => r == Err(InvalidData)
              case Progress(c, requests) => State() == c && requests == [] && r == Ok(None)
      decreases |audio|, 0
    {
      hide Meaning, OneToken, NextToken, Tokenize, ValidUtf8, NameBytes;
      NameMeaning();
      var len := opcode as int - 0xbf;
      if |audio| < len + 1 {
        return Ok(None);
      }
      var name := audio[1..len + 1];
      if !RoomFor(len) || !ValidUtf8(name) {
        return Err(InvalidData);
      }
      NameBytesPush(path, Name(name));
      pathBytes := pathBytes + len;
      path := path + [Name(name)];
      audio := audio[len + 1..];
      NothingMeans();
      r := ParseAudio();
    }

    lemma NameMeaning()
      requires OneToken() && audio != [] && 0xc0 <= audio[0] <= 0xcf
      ensures pathBytes == NameBytes(path)
      ensures var len := audio[0] as int - 0xbf;
              && |audio| <= len + 1
              && (|audio| < len + 1 ==> Meaning() == Progress(State(), []))
              && (|audio| == len + 1 ==>
                    Meaning() ==
                    if PathRoom(limits, State(), len) && ValidUtf8(audio[1..len + 1])
                    then Progress(State().(audio := [], path := path + [Name(audio[1..len + 1])],
                                           pathBytes := pathBytes + len), [])
                    else Rejected)
    {
      hide ValidUtf8, NameBytes;
      WholeToken();
      var len := audio[0] as int - 0xbf;
      if |audio| == len + 1 {
        assert audio[1..len + 1] == audio[1..];
      }
    }

    /** An empty buffer means nothing more. */
    lemma NothingMeans()
      requires audio == [] && pathBytes == NameBytes(path)
      ensures OneToken() && Meaning() == Progress(State(), [])
    {
    }

    /** Node selection, go to root and go up: no request of their own. */
    method ParseSelection(opcode: Byte) returns (r: Result<Option<Request>>)
      requires OneToken() && audio != [] && opcode == audio[0]
      requires opcode == 0xd7 || opcode == 0xda || opcode == 0xdb
      modifies this
      ensures match old(Meaning())
              case Rejected => r == Err(InvalidData)
              case Progress(c, requests) => State() == c && requests == [] && r == Ok(None)
      decreases |audio|, 0
    {
      hide Meaning, OneToken, NextToken, Tokenize, FromBeI32, NameBytes;
      SelectionMeaning();
      NameBytesDrop(path);
      var used := 1;
      if opcode == 0xd7 {
        if |audio| < 5 {
          return Ok(None);
        }
        selectedId := Some(FromBeI32(audio[1..5]));
        used := 5;
      } else if opcode == 0xda {
        selectedId := None;
        path := [];
        pathBytes := 0;
      } else {
        selectedId := None;
        if path != [] {
          NameLengthPop(path);
          if path[|path| - 1].Name? {
            pathBytes := pathBytes - |path[|path| - 1].name|;
          }
          path := path[..|path| - 1];
        }
      }
      audio := audio[used..];
      NothingMeans();
      r := ParseAudio();
    }

    lemma SelectionMeaning()
      requires OneToken() && audio != []
      requires audio[0] == 0xd7 || audio[0] == 0xda || audio[0] == 0xdb
      ensures pathBytes == NameBytes(path)
      ensures audio[0] == 0xd7 ==> |audio| <= 5
      ensures audio[0] == 0xd7 && |audio| < 5 ==> Meaning() == Progress(State(), [])
      ensures audio[0] == 0xd7 && |audio| == 5 ==>
                Meaning() == Progress(State().(audio := [], selectedId := Some(FromBeI32(audio[1..5]))), [])
      ensures audio[0] != 0xd7 ==> |audio| == 1
      ensures audio[0] == 0xda ==>
                Meaning() == Progress(State().(audio := [], selectedId := None, path := [], pathBytes := 0), [])
      ensures audio[0] == 0xdb ==>
                Meaning() ==
                if path == [] then Progress(State().(audio := [], selectedId := None), [])
                else Progress(State().(audio := [], selectedId := None, path := path[..|path| - 1],
                                       pathBytes := pathBytes - NameLength(path[|path| - 1])), [])
    {
      hide FromBeI32, NameBytes;
      WholeToken();
      if |audio| == 5 {
        assert audio[1..5] == audio[1..];
      }
    }

    /** Value tokens set the selected node. */
    method ParseValue(opcode: Byte) returns (r: Result<Option<Request>>)
      requires OneToken() && audio != [] && opcode == audio[0]
      requires opcode <= 0x3f || 0x80 <= opcode <= 0xbf || (0xd0 <= opcode <= 0xd6 && opcode != 0xd2)
      modifies this`audio
      ensures match old(Meaning())
              case Rejected => r == Err(InvalidData)
              case Progress(c, requests) =>
                State() == c
                && r == Ok(if requests == [] then None else Some(requests[0]))
                && |requests| <= 1
                && (requests != [] ==> audio == [])
    {
      WholeToken();
      if opcode <= 0x3f {
        r := SetValue(1, Integer(opcode as int));
      } else if opcode <= 0xbf {
        var len := opcode as int - 0x7f;
        if |audio| < len + 1 {
          return Ok(None);
        }
        assert audio[1..1 + len] == audio[1..];
        r := ParseStringToken(len, 1);
      } else if opcode == 0xd0 {
        r := SetValue(1, Str([]));
      } else if opcode == 0xd1 {
        if |audio| < 2 {
          return Ok(None);
        }
        var len := audio[1] as int + 1;
        if |audio| < len + 2 {
          return Ok(None);
        }
        assert audio[2..2 + len] == audio[2..];
        r := ParseStringToken(len, 2);
      } else if opcode == 0xd3 {
        if |audio| < 3 {
          return Ok(None);
        }
        assert audio[1..3] == audio[1..];
        r := SetValue(3, Integer(Signed16(FromBe16(audio[1..3]))));
      } else if opcode == 0xd4 {
        if |audio| < 5 {
          return Ok(None);
        }
        assert audio[1..5] == audio[1..];
        r := SetValue(5, Integer(FromBeI32(audio[1..5])));
      } else {
        if |audio| < 5 {
          return Ok(None);
        }
        assert audio[1..5] == audio[1..];
        var bits := FromBe32(audio[1..5]);
        r := SetValue(5, if opcode == 0xd5 then Float(bits) else RawFloat(bits));
      }
    }

    /** Toggles, steps, requests and opcodes from the future. */
    method ParseOperation(opcode: Byte) returns (r: Result<Option<Request>>)
      requires OneToken() && audio != [] && opcode == audio[0]
      requires opcode >= 0xd8 && opcode != 0xda && opcode != 0xdb
      modifies this`audio
      ensures match old(Meaning())
              case Rejected => r == Err(InvalidData)
              case Progress(c, requests) =>
                State() == c
                && r == Ok(if requests == [] then None else Some(requests[0]))
                && |requests| <= 1
                && (requests != [] ==> audio == [])
    {
      WholeToken();
      if opcode == 0xd8 {
        if selectedId.None? {
          return Err(InvalidData);
        }
        audio := audio[1..];
        return Ok(Some(Toggle(selectedId.value)));
      } else if opcode == 0xd9 {
        if |audio| < 2 {
          return Ok(None);
        }
        var amount := audio[1];
        if selectedId.None? {
          return Err(InvalidData);
        }
        audio := audio[2..];
        return Ok(Some(StepBy(selectedId.value, SignedByte(amount))));
      } else if opcode == 0xdc || opcode == 0xdd {
        audio := audio[1..];
        if selectedId.Some? {
          return Ok(Some(if opcode == 0xdc then Get(selectedId.value) else Definition(selectedId.value)));
        }
        return Ok(Some(if opcode == 0xdc then BulkData(path) else BulkDefinition(path)));
      } else {
        audio := audio[1..];
        return Ok(Some(Unknown(1, opcode)));
      }
    }

    method PushPathIndex(index: U32) returns (r: Result<()>)
      requires pathBytes == NameBytes(path)
      modifies this`path
      ensures r.Ok? <==> PathRoom(limits, old(State()), 0)
      ensures path == if r.Ok? then old(path) + [Index(index)] else old(path)
      ensures pathBytes == NameBytes(path)
    {
      if !RoomFor(0) {
        return Err(InvalidData);
      }
      NameBytesPush(path, Index(index));
      path := path + [Index(index)];
      return Ok(());
    }

    predicate RoomFor(nameBytes: nat)
      reads this
    {
      |path| < limits.maxPathElements && pathBytes + nameBytes <= limits.maxPathBytes
    }

    method ParseStringToken(len: nat, header: nat) returns (r: Result<Option<Request>>)
      requires header + len <= |audio|
      modifies this`audio
      ensures var text := old(audio)[header..header + len];
              if len > limits.maxStringBytes || !ValidUtf8(text) || selectedId.None?
              then r == Err(InvalidData)
              else r == Ok(Some(Set(selectedId.value, Str(text))))
                   && audio == old(audio)[header + len..]
    {
      if len > limits.maxStringBytes || !ValidUtf8(audio[header..header + len]) {
        return Err(InvalidData);
      }
      r := SetValue(header + len, Str(audio[header..header + len]));
    }

    method SetValue(used: nat, value: NativeValue) returns (r: Result<Option<Request>>)
      requires used <= |audio|
      modifies this`audio
      ensures if selectedId.None? then r == Err(InvalidData)
              else r == Ok(Some(Set(selectedId.value, value))) && audio == old(audio)[used..]
    {
      if selectedId.None? {
        return Err(InvalidData);
      }
      audio := audio[used..];
      return Ok(Some(Set(selectedId.value, value)));
    }

    method ParseMeter() returns (r: Result<Option<Request>>)
      modifies this
      ensures match ParseMeterOnce(limits, old(State()))
              case Rejected => r == Err(InvalidData)
              case Progress(c, requests) =>
                State() == c && r == Ok(if requests == [] then None else Some(requests[0]))
    {
      if meter == [] {
        return Ok(None);
      }
      var opcode := meter[0];
      if opcode == 0xd3 {
        if |meter| < 3 {
          return Ok(None);
        }
        var port := FromBe16(meter[1..3]);
        meterPort := Some(port);
        meter := meter[3..];
        return Ok(Some(MeterPort(port)));
      } else if opcode == 0xd4 {
        if |meter| < 6 {
          return Ok(None);
        }
        var reportId := FromBe32(meter[1..5]);
        if meter[5] != 0xdc {
          meter := meter[5..];
          return Ok(Some(MeterRenew(reportId)));
        }
        // Only the newest byte can close the collection.
        var end := |meter| - 1;
        if end < 6 || meter[end] != 0xde {
          return Ok(None);
        }
        var meters := DecodeMeterEntries(meter[6..end], limits.maxMeterEntries);
        if meters.Err? || meterPort.None? {
          return Err(InvalidData);
        }
        meter := meter[end + 1..];
        return Ok(Some(MeterSubscribe(meterPort.value, reportId, meters.value)));
      } else {
        meter := meter[1..];
        return Ok(Some(Unknown(3, opcode)));
      }
    }

    method FlushMeterRenewal() returns (r: Result<seq<Request>>)
      modifies this`meter
      ensures match FlushRenewal(old(State()))
              case Progress(c, requests) => r == Ok(requests) && State() == c
              case Rejected => r == Err(InvalidData) && State() == old(State())
    {
      if meter == [] {
        return Ok([]);
      }
      if |meter| == 5 && meter[0] == 0xd4 {
        var reportId := FromBe32(meter[1..5]);
        assert meter[1..5] == meter[1..];
        meter := [];
        return Ok([MeterRenew(reportId)]);
      }
      return Err(InvalidData);
    }
  }
}
