/** Meter families and the subscribe collection of the metering channel. */
module Meters {
  import opened Basics
  import opened Framing

  datatype Meter =
    | Channel(n: Byte)
    | Aux(n: Byte)
    | Bus(n: Byte)
    | Main(n: Byte)
    | Matrix(n: Byte)
    | Dca(n: Byte)
    | Fx(n: Byte)
    | Source(n: Byte)
    | Output(n: Byte)
    | Monitor
    | Rta
    | Channel2(n: Byte)
    | Aux2(n: Byte)
    | Bus2(n: Byte)
    | Main2(n: Byte)
    | Matrix2(n: Byte)

  datatype MeterWire = MeterWire(opcode: Byte, index: Byte, max: Byte)

  /** The family's opcode, the 1-based index (0 when the family has none) and the family's
      largest index. */
  function Wire(m: Meter): (w: MeterWire)
    ensures 0xa0 <= w.opcode <= 0xaf && w.max <= 40
  {
    match m
    case Channel(n) => MeterWire(0xa0, n, 40)
    case Aux(n) => MeterWire(0xa1, n, 8)
    case Bus(n) => MeterWire(0xa2, n, 16)
    case Main(n) => MeterWire(0xa3, n, 4)
    case Matrix(n) => MeterWire(0xa4, n, 8)
    case Dca(n) => MeterWire(0xa5, n, 16)
    case Fx(n) => MeterWire(0xa6, n, 16)
    case Source(n) => MeterWire(0xa7, n, 16)
    case Output(n) => MeterWire(0xa8, n, 11)
    case Monitor => MeterWire(0xa9, 0, 0)
    case Rta => MeterWire(0xaa, 0, 0)
    case Channel2(n) => MeterWire(0xab, n, 40)
    case Aux2(n) => MeterWire(0xac, n, 8)
    case Bus2(n) => MeterWire(0xad, n, 16)
    case Main2(n) => MeterWire(0xae, n, 4)
    case Matrix2(n) => MeterWire(0xaf, n, 8)
  }

  function FromWire(opcode: Byte, index: Byte): Option<Meter> {
    match opcode
    case 0xa0 => Some(Channel(index))
    case 0xa1 => Some(Aux(index))
    case 0xa2 => Some(Bus(index))
    case 0xa3 => Some(Main(index))
    case 0xa4 => Some(Matrix(index))
    case 0xa5 => Some(Dca(index))
    case 0xa6 => Some(Fx(index))
    case 0xa7 => Some(Source(index))
    case 0xa8 => Some(Output(index))
    case 0xa9 => if index == 0 then Some(Monitor) else None
    case 0xaa => if index == 0 then Some(Rta) else None
    case 0xab => Some(Channel2(index))
    case 0xac => Some(Aux2(index))
    case 0xad => Some(Bus2(index))
    case 0xae => Some(Main2(index))
    case 0xaf => Some(Matrix2(index))
    case _ => None
  }

  lemma WireRoundTrip(m: Meter)
    ensures FromWire(Wire(m).opcode, Wire(m).index) == Some(m)
  {
  }

  // ---------- the client side: encoding one entry ----------

  /** In range: the entry the subscribe encoder accepts. */
  predicate Requestable(m: Meter) {
    var w := Wire(m);
    w.max == 0 || 1 <= w.index <= w.max
  }

  function EntryBytes(m: Meter): seq<Byte>
    requires Requestable(m)
  {
    var w := Wire(m);
    if w.max == 0 then [w.opcode] else [w.opcode, w.index - 1]
  }

  function EntriesBytes(meters: seq<Meter>): seq<Byte>
    requires forall m :: m in meters ==> Requestable(m)
  {
    if meters == [] then []
    else
      assert meters[0] in meters && forall m :: m in meters[1..] ==> m in meters;
      EntryBytes(meters[0]) + EntriesBytes(meters[1..])
  }

  /** Append one subscribe entry; an out-of-range index is refused. */
  method EncodeMeter(buf: seq<Byte>, meter: Meter) returns (r: Result<seq<Byte>>)
    ensures Requestable(meter) ==> r == Ok(buf + Escape(EntryBytes(meter)))
    ensures !Requestable(meter) ==> r == Err(InvalidInput)
  {
    var w := Wire(meter);
    if w.max == 0 {
      EscapePlain([w.opcode]);
      return Ok(buf + [w.opcode]);
    }
    if w.index == 0 || w.index > w.max {
      return Err(InvalidInput);
    }
    var out := AppendEscaped(buf + [w.opcode], [w.index - 1]);
    EscapePlain([w.opcode]);
    EscapeConcat([w.opcode], [w.index - 1]);
    assert EntryBytes(meter) == [w.opcode] + [w.index - 1];
    assert (buf + [w.opcode]) + Escape([w.index - 1]) == buf + Escape(EntryBytes(meter));
    return Ok(out);
  }

  /** Bytes other than 0xdf are their own escape. */
  lemma {:induction false} EscapePlain(payload: seq<Byte>)
    requires ESCAPE !in payload
    ensures Escape(payload) == payload
  {
    if payload != [] {
      assert payload[0] in payload && forall b :: b in payload[1..] ==> b in payload;
      EscapePlain(payload[1..]);
    }
  }

  // ---------- the server side: decoding a collection ----------

  /** Entries of a collection, given the family the bytes before it selected. */
  function Entries(family: Option<Byte>, raw: seq<Byte>): Result<seq<Meter>>
    decreases raw
  {
    if raw == [] then Ok([])
    else
      var b := raw[0];
      if 0xa0 <= b <= 0xaf then
        var rest :- Entries(Some(b), raw[1..]);
        Ok((if IndexLess(b) then [FromWire(b, 0).value] else []) + rest)
      else if b <= 0x7f && family.Some? && FromWire(family.value, b + 1).Some? then
        var rest :- Entries(family, raw[1..]);
        Ok([FromWire(family.value, b + 1).value] + rest)
      else Err(InvalidData)
  }

  /** The opcode is a whole entry: Monitor and Rta take no index byte. */
  predicate IndexLess(opcode: Byte)
    ensures 0xa0 <= opcode <= 0xaf ==>
              FromWire(opcode, 0).Some? && (IndexLess(opcode) <==> Wire(FromWire(opcode, 0).value).max == 0)
    ensures IndexLess(opcode) ==> 0xa0 <= opcode <= 0xaf
  {
    opcode == 0xa9 || opcode == 0xaa
  }

  function BoundedEntries(raw: seq<Byte>, limit: nat): (r: Result<seq<Meter>>)
    ensures r.Err? ==> r == Err(InvalidData)
    ensures r.Ok? ==> |r.value| <= limit
  {
    var r := Entries(None, raw);
    if r.Ok? && |r.value| <= limit then r else Err(InvalidData)
  }

  function Onto(done: seq<Meter>, rest: Result<seq<Meter>>): Result<seq<Meter>> {
    if rest.Ok? then Ok(done + rest.value) else rest
  }

  lemma OntoTwice(a: seq<Meter>, b: seq<Meter>, rest: Result<seq<Meter>>)
    ensures Onto(a, Onto(b, rest)) == Onto(a + b, rest)
  {
    if rest.Ok? {
      assert a + (b + rest.value) == (a + b) + rest.value;
    }
  }

  lemma OntoNothing(rest: Result<seq<Meter>>)
    ensures Onto([], rest) == rest
  {
    if rest.Ok? {
      assert [] + rest.value == rest.value;
    }
  }

  method DecodeMeterEntries(raw: seq<Byte>, limit: nat) returns (r: Result<seq<Meter>>)
    ensures r == BoundedEntries(raw, limit)
  {
    var meters: seq<Meter> := [];
    var family: Option<Byte> := None;
    assert raw[0..] == raw;
    OntoNothing(Entries(None, raw));
    for i := 0 to |raw|
      invariant Entries(None, raw) == Onto(meters, Entries(family, raw[i..]))
      invariant |meters| <= limit
    {
      assert raw[i..][1..] == raw[i + 1..];
      var byte := raw[i];
      ghost var before, was, rest := meters, family, raw[i + 1..];
      if 0xa0 <= byte <= 0xaf {
        family := Some(byte);
        var meter := FromWire(byte, 0);
        if meter.Some? && Wire(meter.value).max == 0 {
          meters := meters + [meter.value];
          OntoTwice(before, [meter.value], Entries(family, rest));
        } else {
          OntoNothing(Entries(family, rest));
        }
      } else if byte <= 0x7f {
        if family.None? {
          return Err(InvalidData);
        }
        var meter := FromWire(family.value, byte + 1);
        if meter.None? {
          return Err(InvalidData);
        }
        meters := meters + [meter.value];
        OntoTwice(before, [meter.value], Entries(family, rest));
      } else {
        return Err(InvalidData);
      }
      assert Onto(before, Entries(was, raw[i..])) == Onto(meters, Entries(family, rest));
      if |meters| > limit {
        return Err(InvalidData);
      }
    }
    assert raw[|raw|..] == [] && meters + [] == meters;
    return Ok(meters);
  }

  lemma RequestableWire(m: Meter)
    requires Requestable(m)
    ensures var w := Wire(m);
            && (w.max == 0 <==> IndexLess(w.opcode)) && (w.max == 0 ==> w.index == 0)
            && (w.max > 0 ==> 1 <= w.index <= 40)
            && FromWire(w.opcode, w.index) == Some(m)
  {
  }

  /** One entry, whatever family came before it. */
  lemma EntryParses(family: Option<Byte>, m: Meter, tail: seq<Byte>)
    requires Requestable(m)
    ensures Entries(family, EntryBytes(m) + tail) == Onto([m], Entries(Some(Wire(m).opcode), tail))
  {
    RequestableWire(m);
    var w := Wire(m);
    var raw := EntryBytes(m) + tail;
    hide Wire, FromWire, IndexLess;
    if w.max == 0 {
      assert raw[1..] == tail;
    } else {
      var after := raw[1..];
      assert after == [w.index - 1] + tail && after[1..] == tail;
      assert Entries(Some(w.opcode), after) == Onto([m], Entries(Some(w.opcode), tail));
      OntoNothing(Entries(Some(w.opcode), after));
    }
  }

  /** The collection the client writes decodes to the meters it was asked for. */
  lemma {:induction false} EntriesRoundTrip(family: Option<Byte>, meters: seq<Meter>)
    requires forall m :: m in meters ==> Requestable(m)
    ensures Entries(family, EntriesBytes(meters)) == Ok(meters)
    decreases |meters|
  {
    if meters != [] {
      var m := meters[0];
      assert m in meters && forall x :: x in meters[1..] ==> x in meters;
      EntryParses(family, m, EntriesBytes(meters[1..]));
      EntriesRoundTrip(Some(Wire(m).opcode), meters[1..]);
      assert meters == [m] + meters[1..];
    }
  }

  /** No byte of a collection is the end token or an escape. */
  lemma {:induction false} EntriesPlain(meters: seq<Meter>)
    requires forall m :: m in meters ==> Requestable(m)
    ensures forall b :: b in EntriesBytes(meters) ==> b <= 0xaf
    ensures |EntriesBytes(meters)| <= 2 * |meters|
  {
    if meters != [] {
      assert meters[0] in meters && forall x :: x in meters[1..] ==> x in meters;
      EntriesPlain(meters[1..]);
    }
  }
}
