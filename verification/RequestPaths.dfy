/** The requests no client of this library sends: steps and paths. Their wire forms are written
    out here, independently of the decoder. */
module RequestPaths {
  import opened Basics
  import opened Utf8
  import opened Framing
  import opened Tokens
  import opened Requests
  import opened RequestLaws
  import opened ClientServer

  // ---------- steps ----------

  /** A step of the selected node by -128 to 127, in two's complement. */
  function StepToken(amount: int): seq<Byte>
    requires -128 <= amount <= 127
  {
    [0xd9, (if amount < 0 then 256 + amount else amount) as Byte]
  }

  lemma StepYields(limits: Limits, c: Core, amount: int)
    requires Idle(c) && Roomy(limits) && -128 <= amount <= 127
    ensures c.selectedId.Some? ==>
              Yields(limits, c, Escape(StepToken(amount)), [StepBy(c.selectedId.value, amount)], c)
    ensures c.selectedId.None? ==> Apply(limits, c, NextToken(StepToken(amount)).token).Rejected?
  {
    var t := StepToken(amount);
    assert t[..2] == t && NextToken(t) == Complete(Step(t[1]), 2);
    if c.selectedId.Some? {
      TokenYields(limits, c, t);
    }
  }

  // ---------- paths ----------

  /** Names of 1 to 16 bytes, and 1-based indices up to 65536, have a token. */
  predicate ElementOk(e: PathElement) {
    match e
    case Name(name) => 1 <= |name| <= 16
    case Index(i) => 1 <= i <= 0x1_0000
  }

  function ElementToken(e: PathElement): seq<Byte>
    requires ElementOk(e)
  {
    match e
    case Name(name) => [(0xbf + |name|) as Byte] + name
    case Index(i) => if i <= 64 then [(0x3f + i) as Byte] else [0xd2] + Be16(i - 1)
  }

  predicate ElementsOk(path: seq<PathElement>) {
    forall k :: 0 <= k < |path| ==> ElementOk(path[k])
  }

  function PathBytes(path: seq<PathElement>): seq<Byte>
    requires ElementsOk(path)
    decreases |path|
  {
    if path == [] then []
    else PathBytes(path[..|path| - 1]) + Escape(ElementToken(path[|path| - 1]))
  }

  lemma ElementReads(e: PathElement)
    requires ElementOk(e)
    ensures var t := ElementToken(e);
            && NextToken(t) == Complete(if e.Name? then PathName(e.name) else PathIndex(e.index), |t|)
            && |t| <= 17
  {
    var t := ElementToken(e);
    assert TokenSize(t) == |t| && t[..|t|] == t;
    match e
    case Name(name) => assert t[1..] == name;
    case Index(i) =>
      if i > 64 {
        assert t[1..] == Be16(i - 1);
        Be16RoundTrip(i - 1);
      }
  }

  /** The names and the elements of a path, against their limits. */
  predicate PathFits(limits: Limits, path: seq<PathElement>) {
    |path| <= limits.maxPathElements && NameBytes(path) <= limits.maxPathBytes
  }

  /** One more element is taken exactly if the longer path keeps to the limits. */
  lemma ElementYields(limits: Limits, c: Core, e: PathElement)
    requires Idle(c) && Roomy(limits) && ElementOk(e)
    ensures PathFits(limits, c.path + [e]) ==>
              Yields(limits, c, Escape(ElementToken(e)), [],
                     c.(path := c.path + [e], pathBytes := NameBytes(c.path + [e])))
    ensures !PathFits(limits, c.path + [e]) ==>
              Apply(limits, c, NextToken(ElementToken(e)).token).Rejected?
  {
    hide NameBytes, ElementToken, NextToken;
    ElementReads(e);
    NameBytesPush(c.path, e);
    if PathFits(limits, c.path + [e]) {
      TokenYields(limits, c, ElementToken(e));
    }
  }

  lemma {:induction false} PathPrefixFits(limits: Limits, path: seq<PathElement>)
    requires PathFits(limits, path) && path != []
    ensures PathFits(limits, path[..|path| - 1])
  {
  }

  /** At the root with nothing selected. */
  function AtRoot(c: Core): Core {
    c.(selectedId := None, path := [], pathBytes := 0)
  }

  function AtPath(c: Core, path: seq<PathElement>): Core {
    c.(selectedId := None, path := path, pathBytes := NameBytes(path))
  }

  lemma {:induction false} PathYields(limits: Limits, c: Core, path: seq<PathElement>)
    requires Idle(c) && Roomy(limits) && ElementsOk(path) && PathFits(limits, path)
    ensures Yields(limits, AtRoot(c), PathBytes(path), [], AtPath(c, path))
    decreases |path|
  {
    if path == [] {
      assert DataOn(1, []) == [];
    } else {
      hide Run, Deframe, Escape, ElementToken, NameBytes;
      var rest, e := path[..|path| - 1], path[|path| - 1];
      assert path == rest + [e];
      PathPrefixFits(limits, path);
      PathYields(limits, c, rest);
      ElementYields(limits, AtPath(c, rest), e);
      YieldsConcat(limits, AtRoot(c), PathBytes(rest), [], AtPath(c, rest),
                   Escape(ElementToken(e)), [], AtPath(c, path));
    }
  }

  /** Go to the root, walk down any path within the limits, and ask: the server is asked for the
      data or the definitions of exactly that path, whatever 0xdf bytes its names hold. */
  lemma PathRequestYields(limits: Limits, c: Core, path: seq<PathElement>, definitions: bool)
    requires Idle(c) && Roomy(limits) && ElementsOk(path) && PathFits(limits, path)
    ensures Yields(limits, c, [0xda] + PathBytes(path) + [if definitions then 0xdd else 0xdc],
                   [if definitions then BulkDefinition(path) else BulkData(path)], AtPath(c, path))
  {
    hide Run, Deframe, PathBytes, Idle;
    var op: Byte := if definitions then 0xdd else 0xdc;
    var ask := [if definitions then BulkDefinition(path) else BulkData(path)];
    RootYields(limits, c);
    PathYields(limits, c, path);
    AskYields(limits, c, path, definitions);
    YieldsConcat(limits, c, [0xda], [], AtRoot(c), PathBytes(path), [], AtPath(c, path));
    YieldsConcat(limits, c, [0xda] + PathBytes(path), [] + [], AtPath(c, path), [op], ask, AtPath(c, path));
    assert [] + [] + ask == ask;
  }

  lemma RootYields(limits: Limits, c: Core)
    requires Idle(c) && Roomy(limits)
    ensures Idle(AtRoot(c)) && Yields(limits, c, [0xda], [], AtRoot(c))
  {
    OpcodeYields(limits, c, 0xda);
  }

  lemma AskYields(limits: Limits, c: Core, path: seq<PathElement>, definitions: bool)
    requires Idle(c) && Roomy(limits)
    ensures Idle(AtPath(c, path))
    ensures Yields(limits, AtPath(c, path), [if definitions then 0xdd else 0xdc],
                   [if definitions then BulkDefinition(path) else BulkData(path)], AtPath(c, path))
  {
    OpcodeYields(limits, AtPath(c, path), if definitions then 0xdd else 0xdc);
  }

  /** Going up takes back the last element, and nothing from the root. */
  lemma GoUpUndoesElement(limits: Limits, c: Core, e: PathElement)
    requires Idle(c) && Roomy(limits) && ElementOk(e) && PathFits(limits, c.path + [e])
    ensures Yields(limits, c, Escape(ElementToken(e)) + [0xdb], [], c.(selectedId := None))
    ensures Yields(limits, AtRoot(c), [0xdb], [], AtRoot(c))
  {
    hide Run, Deframe, Escape, ElementToken;
    var down := c.(path := c.path + [e], pathBytes := NameBytes(c.path + [e]));
    ElementYields(limits, c, e);
    NameBytesPush(c.path, e);
    UpYields(limits, down);
    UpYields(limits, AtRoot(c));
    assert down.path[..|down.path| - 1] == c.path;
    YieldsConcat(limits, c, Escape(ElementToken(e)), [], down, [0xdb], [], c.(selectedId := None));
  }

  lemma UpYields(limits: Limits, c: Core)
    requires Idle(c) && Roomy(limits)
    ensures var p := Apply(limits, c, GoUp);
            p.Progress? && p.requests == [] && Idle(p.core) && Yields(limits, c, [0xdb], [], p.core)
  {
    assert [0xdb as Byte][..1] == [0xdb] && [0xdb as Byte][1..] == [];
    assert NextToken([0xdb]) == Complete(GoUp, 1) && Escape([0xdb]) == [0xdb];
    ApplyKeepsPathBytes(limits, c, GoUp);
    TokenYields(limits, c, [0xdb]);
  }

  /** Bytes of a channel other than parameters and metering are reported one by one. */
  lemma {:induction false} OtherChannels(limits: Limits, c: Core, channel: Byte, payload: seq<Byte>)
    requires Idle(c) && channel != 1 && channel != 3
    ensures Run(limits, c, DataOn(channel, payload)) ==
            Progress(c, seq(|payload|, k requires 0 <= k < |payload| => Unknown(channel, payload[k])))
    decreases |payload|
  {
    if payload != [] {
      OtherChannels(limits, c, channel, payload[1..]);
      var all := DataOn(channel, payload);
      assert all[1..] == DataOn(channel, payload[1..]);
      assert Handle(limits, c, all[0]) == Progress(c, [Unknown(channel, payload[0])]);
    }
  }
}
