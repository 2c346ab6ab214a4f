/** The wire as a sequence of units, written independently of the byte-by-byte decoder: what
    every possible wire means, raw 0xdf bytes included. */
module WireUnits {
  import opened Basics
  import opened Framing
  import opened Definitions
  import opened Responses
  import opened Reader

  datatype Unit =
    | Plain(value: Byte)
    /** 0xdf, written as 0xdf 0xde or as 0xdf 0xdf. */
    | Literal(twice: bool)
    | Choose(channel: Byte)
    /** 0xdf and a byte that means nothing behind it: both are data. */
    | Pair(value: Byte)

  predicate UnitOk(u: Unit) {
    match u
    case Plain(b) => b != 0xdf
    case Literal(_) => true
    case Choose(c) => c < 14
    case Pair(b) => b < 0xd0 || b > 0xdf
  }

  predicate UnitsOk(us: seq<Unit>) {
    forall k :: 0 <= k < |us| ==> UnitOk(us[k])
  }

  function UnitBytes(u: Unit): seq<Byte>
    requires UnitOk(u)
  {
    match u
    case Plain(b) => [b]
    case Literal(twice) => [0xdf, if twice then 0xdf else 0xde]
    case Choose(c) => [0xdf, 0xd0 + c]
    case Pair(b) => [0xdf, b]
  }

  function Bytes(us: seq<Unit>): seq<Byte>
    requires UnitsOk(us)
  {
    if us == [] then [] else UnitBytes(us[0]) + Bytes(us[1..])
  }

  function UnitEvents(channel: Byte, u: Unit): seq<ChannelEvent> {
    match u
    case Plain(b) => [Data(channel, b)]
    case Literal(_) => [Data(channel, 0xdf)]
    case Choose(c) => [Selected(c)]
    case Pair(b) => [Data(channel, 0xdf), Data(channel, b)]
  }

  function ChannelAfter(channel: Byte, u: Unit): Byte {
    if u.Choose? then u.channel else channel
  }

  /** What the units carry, and the channel they leave selected. */
  function Events(channel: Byte, us: seq<Unit>): (seq<ChannelEvent>, Byte)
    decreases |us|
  {
    if us == [] then ([], channel)
    else
      var rest := Events(ChannelAfter(channel, us[0]), us[1..]);
      (UnitEvents(channel, us[0]) + rest.0, rest.1)
  }

  lemma UnitDecodes(channel: Byte, u: Unit)
    requires UnitOk(u)
    ensures Deframe(OnChannel(channel), UnitBytes(u))
            == Framed(OnChannel(ChannelAfter(channel, u)), UnitEvents(channel, u))
  {
    var s := OnChannel(channel);
    match u
    case Plain(b) => DeframeTwo(s, b, b);
    case Literal(twice) => DeframeTwo(s, 0xdf, if twice then 0xdf else 0xde);
    case Choose(c) => DeframeTwo(s, 0xdf, 0xd0 + c);
    case Pair(b) => DeframeTwo(s, 0xdf, b);
  }

  /** Units decode one after the other to what they carry. */
  lemma {:induction false} UnitsDecode(channel: Byte, us: seq<Unit>)
    requires UnitsOk(us)
    ensures Deframe(OnChannel(channel), Bytes(us))
            == Framed(OnChannel(Events(channel, us).1), Events(channel, us).0)
    decreases |us|
  {
    hide UnitBytes, UnitEvents, DeframeByte;
    if us != [] {
      UnitDecodes(channel, us[0]);
      UnitsDecode(ChannelAfter(channel, us[0]), us[1..]);
      DeframeConcat(OnChannel(channel), UnitBytes(us[0]), Bytes(us[1..]));
    }
  }

  /** Every wire is a sequence of units, and perhaps a last 0xdf that waits for its second byte. */
  lemma {:induction false} EveryWireIsUnits(wire: seq<Byte>) returns (us: seq<Unit>, open: bool)
    ensures UnitsOk(us) && wire == Bytes(us) + (if open then [0xdf] else [])
    decreases |wire|
  {
    if wire == [] {
      us, open := [], false;
    } else if wire == [0xdf] {
      us, open := [], true;
    } else {
      var u := if wire[0] != 0xdf then Plain(wire[0])
               else if wire[1] == 0xde then Literal(false)
               else if wire[1] == 0xdf then Literal(true)
               else if 0xd0 <= wire[1] <= 0xdd then Choose(wire[1] - 0xd0)
               else Pair(wire[1]);
      var more, waits := EveryWireIsUnits(wire[|UnitBytes(u)|..]);
      us, open := [u] + more, waits;
      assert wire == UnitBytes(u) + wire[|UnitBytes(u)|..];
      Behind(u, more, open);
    }
  }

  lemma Behind(u: Unit, us: seq<Unit>, open: bool)
    requires UnitOk(u) && UnitsOk(us)
    ensures UnitsOk([u] + us)
    ensures var tail := if open then [0xdf] else [];
            Bytes([u] + us) + tail == UnitBytes(u) + (Bytes(us) + tail)
  {
    hide UnitBytes;
    assert ([u] + us)[1..] == us;
  }

  /** So the decoder's whole behaviour on a selected channel: the events of the units, and
      whether a 0xdf is waiting. */
  lemma WireDecodes(channel: Byte, wire: seq<Byte>) returns (us: seq<Unit>, open: bool)
    ensures UnitsOk(us) && wire == Bytes(us) + (if open then [0xdf] else [])
    ensures Deframe(OnChannel(channel), wire)
            == Framed(FrameState(open, Some(Events(channel, us).1)), Events(channel, us).0)
  {
    us, open := EveryWireIsUnits(wire);
    UnitsDecode(channel, us);
    var last := OnChannel(Events(channel, us).1);
    DeframeConcat(OnChannel(channel), Bytes(us), if open then [0xdf] else []);
    DeframeTwo(last, 0xdf, 0xdf);
    hide Bytes, Events;
    assert Events(channel, us).0 + [] == Events(channel, us).0;
    assert open || Bytes(us) + [] == Bytes(us);
  }

  /** Before any channel is selected nothing but a selection is accepted. */
  lemma NothingWithoutChannel(u: Unit)
    requires UnitOk(u)
    ensures Deframe(FrameState(false, None), UnitBytes(u)) ==
            if u.Choose? then Framed(OnChannel(u.channel), [Selected(u.channel)])
            else Broken(FrameState(false, None))
  {
    var s := FrameState(false, None);
    match u
    case Plain(b) => assert [b][1..] == [];
    case Literal(twice) => DeframeTwo(s, 0xdf, if twice then 0xdf else 0xde);
    case Choose(c) => DeframeTwo(s, 0xdf, 0xd0 + c);
    case Pair(b) => DeframeTwo(s, 0xdf, b);
  }

  // ---------- raw payloads ----------

  /** No 0xdf is last, or in front of a byte that would give it a meaning. */
  predicate RawSafe(wire: seq<Byte>) {
    forall k :: 0 <= k < |wire| && wire[k] == 0xdf ==>
      k + 1 < |wire| && (wire[k + 1] < 0xd0 || wire[k + 1] > 0xdf)
  }

  /** Such a wire, sent without any escaping, is its own payload. */
  lemma {:induction false} RawPassesThrough(channel: Byte, wire: seq<Byte>)
    requires RawSafe(wire)
    ensures Deframe(OnChannel(channel), wire) == Framed(OnChannel(channel), DataOn(channel, wire))
    decreases |wire|
  {
    hide DeframeByte;
    if wire != [] {
      var n := if wire[0] == 0xdf then 2 else 1;
      var u := if wire[0] == 0xdf then Pair(wire[1]) else Plain(wire[0]);
      var rest := wire[n..];
      assert wire == UnitBytes(u) + rest;
      assert forall k :: 0 <= k < |rest| ==> rest[k] == wire[k + n];
      UnitDecodes(channel, u);
      RawPassesThrough(channel, rest);
      DeframeConcat(OnChannel(channel), UnitBytes(u), rest);
      DataOnConcat(channel, UnitBytes(u), rest);
      DataOfUnit(channel, u);
    }
  }

  lemma DataOfUnit(channel: Byte, u: Unit)
    requires UnitOk(u) && (u.Plain? || u.Pair?)
    ensures DataOn(channel, UnitBytes(u)) == UnitEvents(channel, u)
  {
    if u.Pair? {
      assert [0xdf, u.value][1..] == [u.value] && [u.value][1..] == [];
    } else {
      assert [u.value][1..] == [];
    }
  }

  /** A definition whose token comes as a raw 0xdf, in front of a length byte that gives it no
      meaning, is read as that definition; the rest may be escaped as always. */
  lemma RawDefinitionParses(node: Int32, def: NodeDef, later: seq<Byte>)
    requires Canonical(def) && EncodeResponse(Definition(def)).Ok?
    requires var length := EncodeResponse(Definition(def)).value[1]; length < 0xd0 || length > 0xdf
    ensures var bytes := EncodeResponse(Definition(def)).value;
            var wire := bytes[..2] + Escape(bytes[2..] + later);
            ParseResponse(node, ParameterBytes(OnChannel(1), wire))
            == Done(ClientView(Definition(def)), node, |bytes|)
  {
    hide Canonical, DefBytes, ClientView, ParseResponse, Escape;
    var bytes := EncodeResponse(Definition(def)).value;
    assert bytes[0] == 0xdf && |bytes| >= 2;
    hide EncodeResponse;
    var u := Pair(bytes[1]);
    var tail := bytes[2..] + later;
    assert bytes[..2] == UnitBytes(u);
    UnitDecodes(1, u);
    EscapeRoundTrip(1, tail);
    DeframeConcat(OnChannel(1), UnitBytes(u), Escape(tail));
    DataOfUnit(1, u);
    DataOnConcat(1, UnitBytes(u), tail);
    assert UnitBytes(u) + tail == bytes + later;
    PayloadOfDataOn(1, bytes + later);
    DefinitionParses(node, def, later);
  }
}
