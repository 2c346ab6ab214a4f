/** Node definitions and their wire form. */
module Definitions {
  import opened Basics
  import opened Utf8

  datatype NodeType =
    | Node
    | LinearFloat
    | LogarithmicFloat
    | FaderLevel
    | IntegerNode
    | StringEnum
    | FloatEnum
    | StringNode
    | UnknownType(nibble: Byte)

  datatype NodeUnit =
    | NoUnit
    | Db
    | Percent
    | Milliseconds
    | Hertz
    | Meters
    | Seconds
    | Octaves
    | UnknownUnit(nibble: Byte)

  datatype StringEnumItem = StringEnumItem(item: Text, longItem: Text)

  datatype FloatEnumItem = FloatEnumItem(item: Bits32, longItem: Text)

  datatype NodeDef = NodeDef(
    id: Int32,
    parentId: Int32,
    index: U16,
    name: Text,
    longName: Text,
    nodeType: NodeType,
    unit: NodeUnit,
    readOnly: bool,
    minFloat: Option<Bits32>,
    maxFloat: Option<Bits32>,
    steps: Option<Int32>,
    minInt: Option<Int32>,
    maxInt: Option<Int32>,
    maxStringLen: Option<U16>,
    stringEnum: Option<seq<StringEnumItem>>,
    floatEnum: Option<seq<FloatEnumItem>>,
    raw: seq<Byte>)

  // ---------- flags ----------

  function TypeNibble(t: NodeType): nat {
    match t
    case Node => 0
    case LinearFloat => 1
    case LogarithmicFloat => 2
    case FaderLevel => 3
    case IntegerNode => 4
    case StringEnum => 5
    case FloatEnum => 6
    case StringNode => 7
    case UnknownType(n) => n as int % 16
  }

  function TypeOf(nibble: nat): NodeType
    requires nibble < 16
  {
    match nibble
    case 0 => Node
    case 1 => LinearFloat
    case 2 => LogarithmicFloat
    case 3 => FaderLevel
    case 4 => IntegerNode
    case 5 => StringEnum
    case 6 => FloatEnum
    case 7 => StringNode
    case n => UnknownType(n as Byte)
  }

  function UnitNibble(u: NodeUnit): nat {
    match u
    case NoUnit => 0
    case Db => 1
    case Percent => 2
    case Milliseconds => 3
    case Hertz => 4
    case Meters => 5
    case Seconds => 6
    case Octaves => 7
    case UnknownUnit(n) => n as int % 16
  }

  function UnitOf(nibble: nat): NodeUnit
    requires nibble < 16
  {
    match nibble
    case 0 => NoUnit
    case 1 => Db
    case 2 => Percent
    case 3 => Milliseconds
    case 4 => Hertz
    case 5 => Meters
    case 6 => Seconds
    case 7 => Octaves
    case n => UnknownUnit(n as Byte)
  }

  function Flags(d: NodeDef): U16 {
    TypeNibble(d.nodeType) * 16 + UnitNibble(d.unit) + (if d.readOnly then 0x200 else 0)
  }

  // ---------- specification: writing ----------

  predicate Short(s: Text) {
    |s| <= 255
  }

  function ShortBytes(s: Text): seq<Byte>
    requires Short(s)
  {
    [|s| as Byte] + s
  }

  function StringItemsBytes(items: seq<StringEnumItem>): Result<seq<Byte>> {
    if items == [] then Ok([])
    else if !Short(items[0].item) || !Short(items[0].longItem) then Err(InvalidInput)
    else
      var rest :- StringItemsBytes(items[1..]);
      Ok(ShortBytes(items[0].item) + ShortBytes(items[0].longItem) + rest)
  }

  function FloatItemsBytes(items: seq<FloatEnumItem>): Result<seq<Byte>> {
    if items == [] then Ok([])
    else if !Short(items[0].longItem) then Err(InvalidInput)
    else
      var rest :- FloatItemsBytes(items[1..]);
      Ok(Be32(items[0].item) + ShortBytes(items[0].longItem) + rest)
  }

  function RangeBytes(d: NodeDef): seq<Byte>
    requires d.minFloat.Some? && d.maxFloat.Some? && d.steps.Some?
  {
    Be32(d.minFloat.value) + Be32(d.maxFloat.value) + BeI32(d.steps.value)
  }

  /** The fields that only some node types have. */
  function TypedBytes(d: NodeDef): (r: Result<seq<Byte>>)
    ensures r.Err? ==> r == Err(InvalidInput)
  {
    match d.nodeType
    case Node => Ok([])
    case UnknownType(_) => Ok([])
    case StringNode =>
      if d.maxStringLen.None? then Err(InvalidInput) else Ok(Be16(d.maxStringLen.value))
    case LinearFloat =>
      if d.minFloat.Some? && d.maxFloat.Some? && d.steps.Some? then Ok(RangeBytes(d)) else Err(InvalidInput)
    case LogarithmicFloat =>
      if d.minFloat.Some? && d.maxFloat.Some? && d.steps.Some? then Ok(RangeBytes(d)) else Err(InvalidInput)
    case FaderLevel =>
      if d.minFloat.Some? && d.maxFloat.Some? && d.steps.Some? then Ok(RangeBytes(d))
      else if d.minFloat.None? && d.maxFloat.None? && d.steps.None? then Ok([])
      else Err(InvalidInput)
    case IntegerNode =>
      if d.minInt.Some? && d.maxInt.Some? then Ok(BeI32(d.minInt.value) + BeI32(d.maxInt.value))
      else Err(InvalidInput)
    case StringEnum =>
      if d.stringEnum.None? || |d.stringEnum.value| > 0xffff then Err(InvalidInput)
      else
        StringItemsError(d.stringEnum.value);
        var items :- StringItemsBytes(d.stringEnum.value);
        Ok(Be16(|d.stringEnum.value|) + items)
    case FloatEnum =>
      if d.floatEnum.None? || |d.floatEnum.value| > 0xffff then Err(InvalidInput)
      else
        FloatItemsError(d.floatEnum.value);
        var items :- FloatItemsBytes(d.floatEnum.value);
        Ok(Be16(|d.floatEnum.value|) + items)
  }

  lemma StringItemsError(items: seq<StringEnumItem>)
    ensures StringItemsBytes(items).Err? ==> StringItemsBytes(items) == Err(InvalidInput)
  {
  }

  lemma FloatItemsError(items: seq<FloatEnumItem>)
    ensures FloatItemsBytes(items).Err? ==> FloatItemsBytes(items) == Err(InvalidInput)
  {
  }

  function HeaderBytes(d: NodeDef): (r: seq<Byte>)
    requires Short(d.name) && Short(d.longName)
    ensures |r| >= 14
  {
    BeI32(d.parentId) + BeI32(d.id) + Be16(d.index)
    + ShortBytes(d.name) + ShortBytes(d.longName) + Be16(Flags(d))
  }

  function DefBytes(d: NodeDef): (r: Result<seq<Byte>>)
    ensures r.Err? ==> r == Err(InvalidInput)
    ensures r.Ok? ==> |r.value| >= 14
  {
    if !Short(d.name) || !Short(d.longName) then Err(InvalidInput)
    else
      var typed :- TypedBytes(d);
      Ok(HeaderBytes(d) + typed)
  }

  // ---------- specification: reading ----------

  datatype Read<+T> = Read(value: T, rest: seq<Byte>)

  function Take(s: seq<Byte>, n: nat): Result<Read<seq<Byte>>> {
    if |s| < n then Err(InvalidData) else Ok(Read(s[..n], s[n..]))
  }

  function ReadU8(s: seq<Byte>): Result<Read<Byte>> {
    if |s| < 1 then Err(InvalidData) else Ok(Read(s[0], s[1..]))
  }

  function ReadU16(s: seq<Byte>): Result<Read<U16>> {
    if |s| < 2 then Err(InvalidData) else Ok(Read(FromBe16(s[..2]), s[2..]))
  }

  function ReadBits(s: seq<Byte>): Result<Read<Bits32>> {
    if |s| < 4 then Err(InvalidData) else Ok(Read(FromBe32(s[..4]), s[4..]))
  }

  function ReadI32(s: seq<Byte>): Result<Read<Int32>> {
    if |s| < 4 then Err(InvalidData) else Ok(Read(FromBeI32(s[..4]), s[4..]))
  }

  function ReadText(s: seq<Byte>, n: nat): Result<Read<Text>> {
    if |s| < n || !ValidUtf8(s[..n]) then Err(InvalidData) else Ok(Read(s[..n], s[n..]))
  }

  /** A length byte and that many bytes of text. */
  function ReadShort(s: seq<Byte>): Result<Read<Text>> {
    var n :- ReadU8(s);
    ReadText(n.rest, n.value as int)
  }

  function ReadStringItems(s: seq<Byte>, count: nat): Result<Read<seq<StringEnumItem>>>
    decreases count
  {
    if count == 0 then Ok(Read([], s))
    else
      var item :- ReadShort(s);
      var longItem :- ReadShort(item.rest);
      var others :- ReadStringItems(longItem.rest, count - 1);
      Ok(Read([StringEnumItem(item.value, longItem.value)] + others.value, others.rest))
  }

  function ReadFloatItems(s: seq<Byte>, count: nat): Result<Read<seq<FloatEnumItem>>>
    decreases count
  {
    if count == 0 then Ok(Read([], s))
    else
      var item :- ReadBits(s);
      var longItem :- ReadShort(item.rest);
      var others :- ReadFloatItems(longItem.rest, count - 1);
      Ok(Read([FloatEnumItem(item.value, longItem.value)] + others.value, others.rest))
  }

  /** Everything up to the flags; the typed fields are still absent. */
  function ReadHeader(s: seq<Byte>): Result<Read<NodeDef>> {
    var parentId :- ReadI32(s);
    var id :- ReadI32(parentId.rest);
    var index :- ReadU16(id.rest);
    var name :- ReadShort(index.rest);
    var longName :- ReadShort(name.rest);
    var flags :- ReadU16(longName.rest);
    Ok(Read(Plain(parentId.value, id.value, index.value, name.value, longName.value, flags.value), flags.rest))
  }

  function Plain(parentId: Int32, id: Int32, index: U16, name: Text, longName: Text, flags: U16): NodeDef {
    NodeDef(id, parentId, index, name, longName,
            TypeOf(flags / 16 % 16), UnitOf(flags % 16), flags / 0x200 % 2 != 0,
            None, None, None, None, None, None, None, None, [])
  }

  function ReadRange(d: NodeDef, s: seq<Byte>): (r: Result<NodeDef>)
    ensures r.Ok? ==> HasRange(r.value)
    ensures r.Ok? ==> r.value == d.(minFloat := r.value.minFloat, maxFloat := r.value.maxFloat, steps := r.value.steps)
  {
    var lo :- ReadBits(s);
    var hi :- ReadBits(lo.rest);
    var steps :- ReadI32(hi.rest);
    Ok(d.(minFloat := Some(lo.value), maxFloat := Some(hi.value), steps := Some(steps.value)))
  }

  function ReadTyped(d: NodeDef, s: seq<Byte>): Result<NodeDef> {
    match d.nodeType
    case Node => Ok(d)
    case UnknownType(_) => Ok(d)
    case StringNode =>
      var n :- ReadU16(s);
      Ok(d.(maxStringLen := Some(n.value)))
    case LinearFloat => ReadRange(d, s)
    case LogarithmicFloat => ReadRange(d, s)
    case FaderLevel => if |s| >= 12 then ReadRange(d, s) else Ok(d)
    case IntegerNode =>
      var lo :- ReadI32(s);
      var hi :- ReadI32(lo.rest);
      Ok(d.(minInt := Some(lo.value), maxInt := Some(hi.value)))
    case StringEnum =>
      var count :- ReadU16(s);
      var items :- ReadStringItems(count.rest, count.value);
      Ok(d.(stringEnum := Some(items.value)))
    case FloatEnum =>
      var count :- ReadU16(s);
      var items :- ReadFloatItems(count.rest, count.value);
      Ok(d.(floatEnum := Some(items.value)))
  }

  /** A definition, without its original bytes. */
  function ReadDef(s: seq<Byte>): Result<NodeDef> {
    var header :- ReadHeader(s);
    ReadTyped(header.value, header.rest)
  }

  /** A definition as the console reader keeps it: with its original bytes. */
  function ParseDef(s: seq<Byte>): Result<NodeDef> {
    var d :- ReadDef(s);
    Ok(d.(raw := s))
  }

  // ---------- canonical definitions ----------

  /** Exactly the typed fields of its node type, in a form the wire can carry. */
  predicate Canonical(d: NodeDef) {
    && Short(d.name) && Short(d.longName)
    && (d.nodeType.UnknownType? ==> 8 <= d.nodeType.nibble < 16)
    && (d.unit.UnknownUnit? ==> 8 <= d.unit.nibble < 16)
    && (match d.nodeType
        case LinearFloat => HasRange(d)
        case LogarithmicFloat => HasRange(d)
        case FaderLevel => HasRange(d) || NoRange(d)
        case _ => NoRange(d))
    && (d.minInt.Some? <==> d.nodeType.IntegerNode?)
    && (d.maxInt.Some? <==> d.nodeType.IntegerNode?)
    && (d.maxStringLen.Some? <==> d.nodeType.StringNode?)
    && (d.stringEnum.Some? <==> d.nodeType.StringEnum?)
    && (d.floatEnum.Some? <==> d.nodeType.FloatEnum?)
    && (d.stringEnum.Some? ==> |d.stringEnum.value| <= 0xffff && StringItemsBytes(d.stringEnum.value).Ok?)
    && (d.floatEnum.Some? ==> |d.floatEnum.value| <= 0xffff && FloatItemsBytes(d.floatEnum.value).Ok?)
  }

  predicate HasRange(d: NodeDef) {
    d.minFloat.Some? && d.maxFloat.Some? && d.steps.Some?
  }

  predicate NoRange(d: NodeDef) {
    d.minFloat.None? && d.maxFloat.None? && d.steps.None?
  }

  // ---------- round trip ----------

  lemma ReadShortOf(s: Text, rest: seq<Byte>)
    requires Short(s)
    ensures ReadShort(ShortBytes(s) + rest) == Ok(Read(s, rest))
  {
    var all := ShortBytes(s) + rest;
    assert all[1..] == s + rest;
    assert all[1..][..|s|] == s && all[1..][|s|..] == rest;
  }

  lemma ReadU16Of(x: U16, rest: seq<Byte>)
    ensures ReadU16(Be16(x) + rest) == Ok(Read(x, rest))
  {
    Be16RoundTrip(x);
    assert (Be16(x) + rest)[..2] == Be16(x) && (Be16(x) + rest)[2..] == rest;
  }

  lemma ReadBitsOf(x: Bits32, rest: seq<Byte>)
    ensures ReadBits(Be32(x) + rest) == Ok(Read(x, rest))
  {
    Be32RoundTrip(x);
    assert (Be32(x) + rest)[..4] == Be32(x) && (Be32(x) + rest)[4..] == rest;
  }

  lemma ReadI32Of(x: Int32, rest: seq<Byte>)
    ensures ReadI32(BeI32(x) + rest) == Ok(Read(x, rest))
  {
    BeI32RoundTrip(x);
    assert (BeI32(x) + rest)[..4] == BeI32(x) && (BeI32(x) + rest)[4..] == rest;
  }

  lemma {:induction false} ReadStringItemsOf(items: seq<StringEnumItem>, rest: seq<Byte>)
    requires StringItemsBytes(items).Ok?
    ensures ReadStringItems(StringItemsBytes(items).value + rest, |items|) == Ok(Read(items, rest))
    decreases |items|
  {
    hide ShortBytes, ReadShort;
    if items == [] {
      assert [] + rest == rest;
    } else {
      var a, b := ShortBytes(items[0].item), ShortBytes(items[0].longItem);
      var tail := StringItemsBytes(items[1..]).value + rest;
      assert StringItemsBytes(items).value + rest == a + (b + tail);
      ReadShortOf(items[0].item, b + tail);
      ReadShortOf(items[0].longItem, tail);
      ReadStringItemsOf(items[1..], rest);
      assert items == [items[0]] + items[1..];
    }
  }

  lemma {:induction false} ReadFloatItemsOf(items: seq<FloatEnumItem>, rest: seq<Byte>)
    requires FloatItemsBytes(items).Ok?
    ensures ReadFloatItems(FloatItemsBytes(items).value + rest, |items|) == Ok(Read(items, rest))
    decreases |items|
  {
    hide Be32, ShortBytes, ReadBits, ReadShort;
    if items == [] {
      assert [] + rest == rest;
    } else {
      var a, b := Be32(items[0].item), ShortBytes(items[0].longItem);
      var tail := FloatItemsBytes(items[1..]).value + rest;
      assert FloatItemsBytes(items).value + rest == a + (b + tail);
      ReadBitsOf(items[0].item, b + tail);
      ReadShortOf(items[0].longItem, tail);
      ReadFloatItemsOf(items[1..], rest);
      assert items == [items[0]] + items[1..];
    }
  }

  lemma FlagsRoundTrip(d: NodeDef)
    requires d.nodeType.UnknownType? ==> 8 <= d.nodeType.nibble < 16
    requires d.unit.UnknownUnit? ==> 8 <= d.unit.nibble < 16
    ensures var f := Flags(d);
            TypeOf(f / 16 % 16) == d.nodeType && UnitOf(f % 16) == d.unit
            && (f / 0x200 % 2 != 0) == d.readOnly
  {
    var t, u, r := TypeNibble(d.nodeType), UnitNibble(d.unit), if d.readOnly then 1 else 0;
    var f := Flags(d);
    assert f == r * 0x200 + t * 16 + u && t < 16 && u < 16;
    FlagParts(r, t, u);
  }

  lemma FlagParts(r: nat, t: nat, u: nat)
    requires r < 2 && t < 16 && u < 16
    ensures var f := r * 0x200 + t * 16 + u; f / 16 % 16 == t && f % 16 == u && f / 0x200 == r
  {
    var f := r * 0x200 + t * 16 + u;
    assert f / 16 == r * 32 + t;
  }

  /** The header fields of `d`, with no typed field set. */
  function Bare(d: NodeDef): NodeDef {
    NodeDef(d.id, d.parentId, d.index, d.name, d.longName, d.nodeType, d.unit, d.readOnly,
            None, None, None, None, None, None, None, None, [])
  }

  lemma ReadHeaderOf(d: NodeDef, rest: seq<Byte>)
    requires Canonical(d)
    ensures ReadHeader(HeaderBytes(d) + rest) == Ok(Read(Bare(d), rest))
  {
    var f := Be16(Flags(d)) + rest;
    var e := ShortBytes(d.longName) + f;
    var c := ShortBytes(d.name) + e;
    var b := Be16(d.index) + c;
    var a := BeI32(d.id) + b;
    assert HeaderBytes(d) + rest == BeI32(d.parentId) + a;
    ReadI32Of(d.parentId, a);
    ReadI32Of(d.id, b);
    ReadU16Of(d.index, c);
    ReadShortOf(d.name, e);
    ReadShortOf(d.longName, f);
    ReadU16Of(Flags(d), rest);
    FlagsRoundTrip(d);
  }

  lemma ReadRangeOf(d: NodeDef, base: NodeDef, rest: seq<Byte>)
    requires HasRange(d)
    ensures ReadRange(base, RangeBytes(d) + rest)
         == Ok(base.(minFloat := d.minFloat, maxFloat := d.maxFloat, steps := d.steps))
  {
    var c := BeI32(d.steps.value) + rest;
    var b := Be32(d.maxFloat.value) + c;
    assert RangeBytes(d) + rest == Be32(d.minFloat.value) + b;
    ReadBitsOf(d.minFloat.value, b);
    ReadBitsOf(d.maxFloat.value, c);
    ReadI32Of(d.steps.value, rest);
  }

  lemma ReadTypedOf(d: NodeDef)
    requires Canonical(d)
    ensures TypedBytes(d).Ok?
    ensures ReadTyped(Bare(d), TypedBytes(d).value) == Ok(d.(raw := []))
  {
    var t := TypedBytes(d).value;
    match d.nodeType
    case Node =>
    case UnknownType(_) =>
    case StringNode =>
      ReadU16Of(d.maxStringLen.value, []);
      assert t + [] == t;
    case LinearFloat =>
      ReadRangeOf(d, Bare(d), []);
      assert t + [] == t;
    case LogarithmicFloat =>
      ReadRangeOf(d, Bare(d), []);
      assert t + [] == t;
    case FaderLevel =>
      if HasRange(d) {
        ReadRangeOf(d, Bare(d), []);
        assert t + [] == t;
      }
    case IntegerNode =>
      ReadI32Of(d.minInt.value, BeI32(d.maxInt.value));
      ReadI32Of(d.maxInt.value, []);
      assert BeI32(d.maxInt.value) + [] == BeI32(d.maxInt.value);
    case StringEnum =>
      var items := StringItemsBytes(d.stringEnum.value).value;
      ReadU16Of(|d.stringEnum.value|, items);
      ReadStringItemsOf(d.stringEnum.value, []);
      assert items + [] == items;
    case FloatEnum =>
      var items := FloatItemsBytes(d.floatEnum.value).value;
      ReadU16Of(|d.floatEnum.value|, items);
      ReadFloatItemsOf(d.floatEnum.value, []);
      assert items + [] == items;
  }

  /** Every canonical definition survives the wire, whatever the length of its enum lists. */
  lemma DefRoundTrip(d: NodeDef)
    requires Canonical(d)
    ensures DefBytes(d).Ok?
    ensures ReadDef(DefBytes(d).value) == Ok(d.(raw := []))
    ensures ParseDef(DefBytes(d).value) == Ok(d.(raw := DefBytes(d).value))
  {
    ReadTypedOf(d);
    ReadHeaderOf(d, TypedBytes(d).value);
  }

  // ---------- every parsed definition is canonical ----------

  lemma {:induction false} ReadStringItemsBack(s: seq<Byte>, count: nat)
    requires ReadStringItems(s, count).Ok?
    ensures var items := ReadStringItems(s, count).value.value;
            |items| == count && StringItemsBytes(items).Ok?
    decreases count
  {
    hide ReadShort, ShortBytes;
    if count > 0 {
      var item := ReadShort(s).value;
      var longItem := ReadShort(item.rest).value;
      ShortRead(s);
      ShortRead(item.rest);
      ReadStringItemsBack(longItem.rest, count - 1);
      var items, others := ReadStringItems(s, count).value.value,
                           ReadStringItems(longItem.rest, count - 1).value.value;
      assert items[1..] == others;
    }
  }

  lemma {:induction false} ReadFloatItemsBack(s: seq<Byte>, count: nat)
    requires ReadFloatItems(s, count).Ok?
    ensures var items := ReadFloatItems(s, count).value.value;
            |items| == count && FloatItemsBytes(items).Ok?
    decreases count
  {
    hide ReadBits, ReadShort, ShortBytes;
    if count > 0 {
      var item := ReadBits(s).value;
      var longItem := ReadShort(item.rest).value;
      ShortRead(item.rest);
      ReadFloatItemsBack(longItem.rest, count - 1);
      var items, others := ReadFloatItems(s, count).value.value,
                           ReadFloatItems(longItem.rest, count - 1).value.value;
      assert items[1..] == others;
    }
  }

  /** A header on its own: legal names and nibbles, and no typed field. */
  predicate BareHeader(d: NodeDef) {
    && Short(d.name) && Short(d.longName)
    && (d.nodeType.UnknownType? ==> 8 <= d.nodeType.nibble < 16)
    && (d.unit.UnknownUnit? ==> 8 <= d.unit.nibble < 16)
    && d == Bare(d)
  }

  lemma PlainIsBare(parentId: Int32, id: Int32, index: U16, name: Text, longName: Text, flags: U16)
    requires Short(name) && Short(longName)
    ensures BareHeader(Plain(parentId, id, index, name, longName, flags))
  {
  }

  lemma ShortRead(s: seq<Byte>)
    requires ReadShort(s).Ok?
    ensures Short(ReadShort(s).value.value)
  {
  }

  lemma HeaderIsBare(s: seq<Byte>)
    requires ReadHeader(s).Ok?
    ensures BareHeader(ReadHeader(s).value.value)
  {
    hide ReadI32, ReadU16, ReadShort, Plain, BareHeader, Short;
    var parentId := ReadI32(s).value;
    var id := ReadI32(parentId.rest).value;
    var index := ReadU16(id.rest).value;
    var name := ReadShort(index.rest).value;
    var longName := ReadShort(name.rest).value;
    var flags := ReadU16(longName.rest).value;
    ShortRead(index.rest);
    ShortRead(name.rest);
    PlainIsBare(parentId.value, id.value, index.value, name.value, longName.value, flags.value);
  }

  lemma TypedIsCanonical(d: NodeDef, s: seq<Byte>)
    requires BareHeader(d) && ReadTyped(d, s).Ok?
    ensures Canonical(ReadTyped(d, s).value) && ReadTyped(d, s).value.raw == []
  {
    hide ReadRange, ReadI32, ReadStringItems, ReadFloatItems, StringItemsBytes, FloatItemsBytes;
    match d.nodeType
    case StringEnum =>
      var count := ReadU16(s).value;
      ReadStringItemsBack(count.rest, count.value);
    case FloatEnum =>
      var count := ReadU16(s).value;
      ReadFloatItemsBack(count.rest, count.value);
    case _ =>
  }

  /** Whatever bytes it came from, a parsed definition is canonical; so writing it and parsing
      it again gives the same fields. */
  lemma ParsedIsCanonical(s: seq<Byte>)
    requires ReadDef(s).Ok?
    ensures var d := ReadDef(s).value;
            Canonical(d) && DefBytes(d).Ok? && ReadDef(DefBytes(d).value) == Ok(d)
  {
    var header := ReadHeader(s).value;
    HeaderIsBare(s);
    TypedIsCanonical(header.value, header.rest);
    DefRoundTrip(ReadDef(s).value);
  }
}
