/** What every run of the request decoder keeps, and its independence from fragmentation. */
module RequestLaws {
  import opened Basics
  import opened Framing
  import opened Tokens
  import opened Meters
  import opened Requests

  // ---------- invariants of every run ----------

  lemma InitialInv(limits: Limits)
    ensures Inv(limits, INITIAL)
  {
  }

  lemma NameLengthPop(path: seq<PathElement>)
    requires path != []
    ensures NameBytes(path[..|path| - 1]) + NameLength(path[|path| - 1]) == NameBytes(path)
  {
  }

  lemma AudioByteInv(limits: Limits, c: Core, b: Byte)
    requires Inv(limits, c)
    ensures var p := AudioByte(limits, c, b); p.Progress? ==> Inv(limits, p.core)
  {
    var grown := c.(audio := c.audio + [b]);
    match NextToken(grown.audio)
    case Partial =>
    case Complete(t, size) =>
      NextTokenGrows(c.audio, b);
      assert grown.audio[size..] == [];
      ApplyKeepsPathBytes(limits, grown.(audio := []), t);
      if t.GoUp? && c.path != [] {
        NameLengthPop(c.path);
      }
  }

  lemma DrainEmpty(limits: Limits, c: Core)
    requires c.meter == []
    ensures DrainMeter(limits, c) == Progress(c, [])
  {
  }

  /** One byte of the metering channel yields at most two requests, and only the bytes of an
      unfinished token or collection stay behind. */
  lemma MeterByteShape(limits: Limits, c: Core, b: Byte)
    requires MeterShape(c.meter)
    ensures var p := MeterByte(limits, c, b);
            p.Progress? ==> MeterShape(p.core.meter) && |p.requests| <= 2
    ensures var p := MeterByte(limits, c, b);
            p.Progress? ==> |p.core.meter| <= |c.meter| + 1
                            && p.core == c.(meter := p.core.meter, meterPort := p.core.meterPort)
  {
    hide BoundedEntries, FromBe16, FromBe32;
    var grown := c.(meter := c.meter + [b]);
    var m := grown.meter;
    DrainMeterFrame(limits, grown);
    var first := ParseMeterOnce(limits, grown);
    if first.Progress? && first.requests != [] {
      var left := first.core;
      if m[0] == 0xd4 && m[5] != 0xdc {
        assert left.meter == [b];
        var second := ParseMeterOnce(limits, left);
        if second.requests != [] {
          DrainEmpty(limits, second.core);
        }
      } else {
        DrainEmpty(limits, left);
      }
    } else if first.Progress? && |m| >= 7 && m[0] == 0xd4 {
      assert m[6..] == c.meter[6..] + [b];
    }
  }

  lemma MeterByteInv(limits: Limits, c: Core, b: Byte)
    requires Inv(limits, c)
    ensures var p := MeterByte(limits, c, b); p.Progress? ==> Inv(limits, p.core)
  {
    MeterByteShape(limits, c, b);
  }

  lemma HandleInv(limits: Limits, c: Core, e: ChannelEvent)
    requires Inv(limits, c)
    ensures var p := Handle(limits, c, e); p.Progress? ==> Inv(limits, p.core)
  {
    if e.Data? && e.channel == 1 {
      AudioByteInv(limits, c, e.value);
    } else if e.Data? && e.channel == 3 {
      MeterByteInv(limits, c, e.value);
    }
  }

  /** Every accepted stream leaves the decoder inside its limits and between tokens. */
  lemma {:induction false} RunInv(limits: Limits, c: Core, events: seq<ChannelEvent>)
    requires Inv(limits, c)
    ensures var p := Run(limits, c, events); p.Progress? ==> Inv(limits, p.core)
    decreases |events|
  {
    if events != [] {
      HandleInv(limits, c, events[0]);
      var p := Handle(limits, c, events[0]);
      if p.Progress? {
        RunInv(limits, p.core, events[1..]);
      }
    }
  }

  /** The audio buffer is always a strict prefix of one token, so at most 257 bytes. */
  lemma AudioIsShort(limits: Limits, c: Core)
    requires Inv(limits, c)
    ensures |c.audio| <= 257
    ensures c.audio != [] ==> |c.audio| < TokenSize(c.audio)
  {
    if c.audio != [] {
      TokenSizeBound(c.audio);
    }
  }

  /** The first end byte of a collection, found by looking at all of it. */
  function FirstEnd(meter: seq<Byte>, from: nat): (k: nat)
    requires from <= |meter|
    ensures from <= k <= |meter|
    ensures k < |meter| ==> meter[k] == 0xde
    ensures forall j :: from <= j < k ==> meter[j] != 0xde
    decreases |meter| - from
  {
    if from == |meter| || meter[from] == 0xde then from
    else FirstEnd(meter, from + 1)
  }

  /** Looking only at the newest byte finds the same end as scanning the whole collection. */
  lemma NewestByteClosesTheCollection(limits: Limits, c: Core, b: Byte)
    requires Inv(limits, c)
    requires |c.meter| >= 6 && c.meter[0] == 0xd4
    ensures var m := c.meter + [b];
            if b == 0xde then FirstEnd(m, 6) == |m| - 1 else FirstEnd(m, 6) == |m|
  {
    var m := c.meter + [b];
    assert m[|m| - 1] == b;
    forall j | 6 <= j < |c.meter|
      ensures m[j] != 0xde
    {
      assert c.meter[6..][j - 6] == m[j];
    }
  }

  // ---------- fragmentation ----------

  lemma {:induction false} RunConcat(limits: Limits, c: Core,
                                     a: seq<ChannelEvent>, b: seq<ChannelEvent>)
    requires c.pathBytes == NameBytes(c.path)
    ensures Run(limits, c, a).Progress? ==>
              Run(limits, c, a).core.pathBytes == NameBytes(Run(limits, c, a).core.path)
    ensures Run(limits, c, a + b) ==
            var first := Run(limits, c, a);
            if first.Rejected? then first
            else Before(first.requests, Run(limits, first.core, b))
    decreases |a|
  {
    if a == [] {
      assert a + b == b;
      BeforeNothing(Run(limits, c, b));
    } else {
      assert (a + b)[1..] == a[1..] + b;
      HandleKeepsPathBytes(limits, c, a[0]);
      var p := Handle(limits, c, a[0]);
      if p.Progress? {
        RunConcat(limits, p.core, a[1..], b);
        var rest := Run(limits, p.core, a[1..]);
        if rest.Progress? {
          BeforeTwice(p.requests, rest.requests, Run(limits, rest.core, b));
        }
      }
    }
  }

  lemma PushKeepsPathBytes(limits: Limits, f: FrameState, c: Core, input: seq<Byte>)
    requires c.pathBytes == NameBytes(c.path)
    ensures var p := PushAll(limits, f, c, input);
            p.Accepted? ==> p.core.pathBytes == NameBytes(p.core.path)
  {
    if Deframe(f, input).Framed? {
      RunKeepsPathBytes(limits, c, Deframe(f, input).events);
    }
  }

  /** Two pushes, the second only if the first was accepted. */
  function PushTwo(limits: Limits, f: FrameState, c: Core, a: seq<Byte>, b: seq<Byte>): Pushed
    requires c.pathBytes == NameBytes(c.path)
  {
    match PushAll(limits, f, c, a)
    case Refused => Refused
    case Accepted(f1, c1, ra) =>
      PushKeepsPathBytes(limits, f, c, a);
      match PushAll(limits, f1, c1, b)
      case Refused => Refused
      case Accepted(f2, c2, rb) => Accepted(f2, c2, ra + rb)
  }

  /** One push of `a + b` is the push of `a` and then of `b`, except that the batch limit
      counts requests per push. */
  lemma PushSplits(limits: Limits, f: FrameState, c: Core, a: seq<Byte>, b: seq<Byte>)
    requires c.pathBytes == NameBytes(c.path)
    ensures var two := PushTwo(limits, f, c, a, b);
            PushAll(limits, f, c, a + b) ==
            if two.Accepted? && |two.requests| <= limits.maxBatchRequests then two else Refused
  {
    hide Deframe, Run;
    DeframeConcat(f, a, b);
    if Deframe(f, a).Framed? {
      var fa := Deframe(f, a);
      if Deframe(fa.state, b).Framed? {
        RunConcat(limits, c, fa.events, Deframe(fa.state, b).events);
      }
    }
  }

  /** Pushing a stream piece by piece. */
  function PushPieces(limits: Limits, f: FrameState, c: Core, pieces: seq<seq<Byte>>): Pushed
    requires c.pathBytes == NameBytes(c.path)
    decreases |pieces|
  {
    if pieces == [] then Accepted(f, c, [])
    else
      match PushAll(limits, f, c, pieces[0])
      case Refused => Refused
      case Accepted(f1, c1, r1) =>
        PushKeepsPathBytes(limits, f, c, pieces[0]);
        match PushPieces(limits, f1, c1, pieces[1..])
        case Refused => Refused
        case Accepted(f2, c2, r2) => Accepted(f2, c2, r1 + r2)
  }

  function Flatten(pieces: seq<seq<Byte>>): seq<Byte> {
    if pieces == [] then [] else pieces[0] + Flatten(pieces[1..])
  }

  /** However a stream is cut, it decodes to the same requests and the same final state; one
      push of all of it fails exactly when some piece fails or the batch limit is passed. */
  lemma {:induction false} FragmentationIndependence(
      limits: Limits, f: FrameState, c: Core, pieces: seq<seq<Byte>>)
    requires c.pathBytes == NameBytes(c.path)
    ensures var piecewise := PushPieces(limits, f, c, pieces);
            PushAll(limits, f, c, Flatten(pieces)) ==
            if piecewise.Accepted? && |piecewise.requests| <= limits.maxBatchRequests
            then piecewise else Refused
    decreases |pieces|
  {
    if pieces == [] {
    } else {
      PushSplits(limits, f, c, pieces[0], Flatten(pieces[1..]));
      var first := PushAll(limits, f, c, pieces[0]);
      if first.Accepted? {
        PushKeepsPathBytes(limits, f, c, pieces[0]);
        FragmentationIndependence(limits, first.frame, first.core, pieces[1..]);
      }
    }
  }

  /** No single push of `pieces` yields more requests than the batch limit. */
  predicate EachPushFits(limits: Limits, f: FrameState, c: Core, pieces: seq<seq<Byte>>)
    requires c.pathBytes == NameBytes(c.path)
    decreases |pieces|
  {
    pieces == [] ||
    (var d := Deframe(f, pieces[0]);
     d.Framed? ==>
       var p := Run(limits, c, d.events);
       RunKeepsPathBytes(limits, c, d.events);
       p.Progress? ==>
         |p.requests| <= limits.maxBatchRequests && EachPushFits(limits, d.state, p.core, pieces[1..]))
  }

  /** A stream that is good as a whole is accepted piece by piece exactly when each piece keeps
      to the batch limit, and then it yields what the whole stream yields. */
  lemma {:induction false} PiecesExact(limits: Limits, f: FrameState, c: Core, pieces: seq<seq<Byte>>)
    requires c.pathBytes == NameBytes(c.path)
    requires Deframe(f, Flatten(pieces)).Framed?
    requires Run(limits, c, Deframe(f, Flatten(pieces)).events).Progress?
    ensures var d := Deframe(f, Flatten(pieces));
            var whole := Run(limits, c, d.events);
            PushPieces(limits, f, c, pieces) ==
            if EachPushFits(limits, f, c, pieces) then Accepted(d.state, whole.core, whole.requests)
            else Refused
    ensures |Run(limits, c, Deframe(f, Flatten(pieces)).events).requests| <= limits.maxBatchRequests ==>
              EachPushFits(limits, f, c, pieces)
    decreases |pieces|
  {
    if pieces == [] {
    } else {
      var rest := Flatten(pieces[1..]);
      DeframeConcat(f, pieces[0], rest);
      var d := Deframe(f, pieces[0]);
      var e := Deframe(d.state, rest);
      RunConcat(limits, c, d.events, e.events);
      var p := Run(limits, c, d.events);
      PiecesExact(limits, d.state, p.core, pieces[1..]);
    }
  }
}
