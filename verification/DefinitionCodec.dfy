/** The definition codec as the program runs it: a growing buffer on one side, a cursor over the
    bytes on the other. */
module DefinitionCodec {
  import opened Basics
  import opened Utf8
  import opened Definitions

  // ---------- writing ----------

  method PushShortString(raw: seq<Byte>, value: Text) returns (r: Result<seq<Byte>>)
    ensures r == if Short(value) then Ok(raw + ShortBytes(value)) else Err(InvalidInput)
  {
    if |value| > 255 {
      return Err(InvalidInput);
    }
    var out := raw + [|value| as Byte];
    out := out + value;
    assert out == raw + ShortBytes(value);
    return Ok(out);
  }

  function Grown(raw: seq<Byte>, tail: Result<seq<Byte>>): Result<seq<Byte>> {
    if tail.Ok? then Ok(raw + tail.value) else tail
  }

  lemma GrownTwice(a: seq<Byte>, b: seq<Byte>, tail: Result<seq<Byte>>)
    ensures tail.Ok? ==> a + (b + tail.value) == (a + b) + tail.value
  {
  }

  method PushStringItems(raw: seq<Byte>, items: seq<StringEnumItem>) returns (r: Result<seq<Byte>>)
    ensures r == Grown(raw, StringItemsBytes(items))
  {
    StringItemsError(items);
    var out := raw;
    assert items[0..] == items;
    for k := 0 to |items|
      invariant Grown(out, StringItemsBytes(items[k..])) == Grown(raw, StringItemsBytes(items))
    {
      assert items[k..][0] == items[k] && items[k..][1..] == items[k + 1..];
      StringItemsError(items[k + 1..]);
      var item := PushShortString(out, items[k].item);
      if item.Err? {
        return item;
      }
      var longItem := PushShortString(item.value, items[k].longItem);
      if longItem.Err? {
        return longItem;
      }
      GrownTwice(out, ShortBytes(items[k].item) + ShortBytes(items[k].longItem), StringItemsBytes(items[k + 1..]));
      assert longItem.value == out + (ShortBytes(items[k].item) + ShortBytes(items[k].longItem));
      out := longItem.value;
    }
    assert items[|items|..] == [] && out + [] == out;
    return Ok(out);
  }

  method PushFloatItems(raw: seq<Byte>, items: seq<FloatEnumItem>) returns (r: Result<seq<Byte>>)
    ensures r == Grown(raw, FloatItemsBytes(items))
  {
    FloatItemsError(items);
    var out := raw;
    assert items[0..] == items;
    for k := 0 to |items|
      invariant Grown(out, FloatItemsBytes(items[k..])) == Grown(raw, FloatItemsBytes(items))
    {
      assert items[k..][0] == items[k] && items[k..][1..] == items[k + 1..];
      FloatItemsError(items[k + 1..]);
      var longItem := PushShortString(out + Be32(items[k].item), items[k].longItem);
      if longItem.Err? {
        return longItem;
      }
      GrownTwice(out, Be32(items[k].item) + ShortBytes(items[k].longItem), FloatItemsBytes(items[k + 1..]));
      assert longItem.value == out + (Be32(items[k].item) + ShortBytes(items[k].longItem));
      out := longItem.value;
    }
    assert items[|items|..] == [] && out + [] == out;
    return Ok(out);
  }

  /** Serialize a definition from its fields; incomplete type metadata is refused. */
  method ToWireBytes(d: NodeDef) returns (r: Result<seq<Byte>>)
    ensures r == DefBytes(d)
  {
    var raw := BeI32(d.parentId) + BeI32(d.id) + Be16(d.index);
    var name := PushShortString(raw, d.name);
    if name.Err? {
      return name;
    }
    var longName := PushShortString(name.value, d.longName);
    if longName.Err? {
      return longName;
    }
    raw := longName.value + Be16(Flags(d));
    assert raw == HeaderBytes(d);
    r := PushTyped(raw, d);
  }

  method PushTyped(raw: seq<Byte>, d: NodeDef) returns (r: Result<seq<Byte>>)
    ensures r == Grown(raw, TypedBytes(d))
  {
    hide StringItemsBytes, FloatItemsBytes, Be16, BeI32, Be32;
    match d.nodeType
    case Node =>
      assert raw + [] == raw;
      return Ok(raw);
    case UnknownType(_) =>
      assert raw + [] == raw;
      return Ok(raw);
    case StringNode =>
      return if d.maxStringLen.None? then Err(InvalidInput) else Ok(raw + Be16(d.maxStringLen.value));
    case LinearFloat =>
      r := PushRange(raw, d);
    case LogarithmicFloat =>
      r := PushRange(raw, d);
    case FaderLevel =>
      if d.minFloat.None? && d.maxFloat.None? && d.steps.None? {
        assert raw + [] == raw;
        return Ok(raw);
      }
      r := PushRange(raw, d);
    case IntegerNode =>
      if d.minInt.None? || d.maxInt.None? {
        return Err(InvalidInput);
      }
      var out := raw + BeI32(d.minInt.value);
      out := out + BeI32(d.maxInt.value);
      assert out == raw + (BeI32(d.minInt.value) + BeI32(d.maxInt.value));
      return Ok(out);
    case StringEnum =>
      if d.stringEnum.None? || |d.stringEnum.value| > 0xffff {
        return Err(InvalidInput);
      }
      var items := d.stringEnum.value;
      StringItemsError(items);
      r := PushStringItems(raw + Be16(|items|), items);
      if r.Ok? {
        assert r.value == raw + (Be16(|items|) + StringItemsBytes(items).value);
      }
    case FloatEnum =>
      if d.floatEnum.None? || |d.floatEnum.value| > 0xffff {
        return Err(InvalidInput);
      }
      var items := d.floatEnum.value;
      FloatItemsError(items);
      r := PushFloatItems(raw + Be16(|items|), items);
      if r.Ok? {
        assert r.value == raw + (Be16(|items|) + FloatItemsBytes(items).value);
      }
  }

  method PushRange(raw: seq<Byte>, d: NodeDef) returns (r: Result<seq<Byte>>)
    ensures r == if HasRange(d) then Ok(raw + RangeBytes(d)) else Err(InvalidInput)
  {
    if d.minFloat.None? || d.maxFloat.None? || d.steps.None? {
      return Err(InvalidInput);
    }
    var out := raw + Be32(d.minFloat.value);
    out := out + Be32(d.maxFloat.value);
    out := out + BeI32(d.steps.value);
    assert out == raw + RangeBytes(d);
    return Ok(out);
  }

  // ---------- reading: a cursor over `raw` ----------

  /** What a cursor step at `i` reads, as the specification sees the bytes from `i` on. */
  ghost predicate At<T>(raw: seq<Byte>, spec: Result<Read<T>>, r: Result<T>, next: nat) {
    match spec
    case Err(e) => r == Err(e)
    case Ok(read) => r == Ok(read.value) && next <= |raw| && read.rest == raw[next..]
  }

  method TakeBytes(raw: seq<Byte>, i: nat, len: nat) returns (r: Result<seq<Byte>>, next: nat)
    requires i <= |raw|
    ensures At(raw, Take(raw[i..], len), r, next)
    ensures r.Ok? ==> next == i + len <= |raw|
  {
    if |raw| - i < len {
      return Err(InvalidData), i;
    }
    assert raw[i..][..len] == raw[i..i + len] && raw[i..][len..] == raw[i + len..];
    return Ok(raw[i..i + len]), i + len;
  }

  method CursorU8(raw: seq<Byte>, i: nat) returns (r: Result<Byte>, next: nat)
    requires i <= |raw|
    ensures At(raw, ReadU8(raw[i..]), r, next)
  {
    var bytes, after := TakeBytes(raw, i, 1);
    next := after;
    r := if bytes.Err? then Err(bytes.error) else Ok(bytes.value[0]);
  }

  method CursorU16(raw: seq<Byte>, i: nat) returns (r: Result<U16>, next: nat)
    requires i <= |raw|
    ensures At(raw, ReadU16(raw[i..]), r, next)
  {
    var bytes, after := TakeBytes(raw, i, 2);
    next := after;
    r := if bytes.Err? then Err(bytes.error) else Ok(FromBe16(bytes.value));
  }

  method CursorBits(raw: seq<Byte>, i: nat) returns (r: Result<Bits32>, next: nat)
    requires i <= |raw|
    ensures At(raw, ReadBits(raw[i..]), r, next)
  {
    var bytes, after := TakeBytes(raw, i, 4);
    next := after;
    r := if bytes.Err? then Err(bytes.error) else Ok(FromBe32(bytes.value));
  }

  method CursorI32(raw: seq<Byte>, i: nat) returns (r: Result<Int32>, next: nat)
    requires i <= |raw|
    ensures At(raw, ReadI32(raw[i..]), r, next)
  {
    var bytes, after := TakeBytes(raw, i, 4);
    next := after;
    r := if bytes.Err? then Err(bytes.error) else Ok(FromBeI32(bytes.value));
  }

  method CursorShort(raw: seq<Byte>, i: nat) returns (r: Result<Text>, next: nat)
    requires i <= |raw|
    ensures At(raw, ReadShort(raw[i..]), r, next)
  {
    var len, after := CursorU8(raw, i);
    if len.Err? {
      return Err(len.error), i;
    }
    var bytes, end := TakeBytes(raw, after, len.value as int);
    if bytes.Err? {
      return Err(InvalidData), i;
    }
    if !ValidUtf8(bytes.value) {
      return Err(InvalidData), i;
    }
    return Ok(bytes.value), end;
  }

  function OntoItems<T>(done: seq<T>, rest: Result<Read<seq<T>>>): Result<Read<seq<T>>> {
    if rest.Ok? then Ok(Read(done + rest.value.value, rest.value.rest)) else rest
  }

  method CursorStringItems(raw: seq<Byte>, i: nat, count: U16)
    returns (r: Result<seq<StringEnumItem>>, next: nat)
    requires i <= |raw|
    ensures At(raw, ReadStringItems(raw[i..], count), r, next)
  {
    hide ReadShort, ReadBits;
    var items: seq<StringEnumItem> := [];
    next := i;
    if ReadStringItems(raw[i..], count).Ok? {
      assert [] + ReadStringItems(raw[i..], count).value.value == ReadStringItems(raw[i..], count).value.value;
    }
    for k := 0 to count
      invariant next <= |raw|
      invariant ReadStringItems(raw[i..], count) == OntoItems(items, ReadStringItems(raw[next..], count - k))
    {
      var item, mid := CursorShort(raw, next);
      if item.Err? {
        return Err(item.error), next;
      }
      var longItem, end := CursorShort(raw, mid);
      if longItem.Err? {
        return Err(longItem.error), next;
      }
      var one := StringEnumItem(item.value, longItem.value);
      ghost var others := ReadStringItems(raw[end..], count - (k + 1));
      if others.Ok? {
        assert items + ([one] + others.value.value) == (items + [one]) + others.value.value;
      }
      items := items + [one];
      next := end;
    }
    assert items + [] == items;
    return Ok(items), next;
  }

  method CursorFloatItems(raw: seq<Byte>, i: nat, count: U16)
    returns (r: Result<seq<FloatEnumItem>>, next: nat)
    requires i <= |raw|
    ensures At(raw, ReadFloatItems(raw[i..], count), r, next)
  {
    hide ReadShort, ReadBits;
    var items: seq<FloatEnumItem> := [];
    next := i;
    if ReadFloatItems(raw[i..], count).Ok? {
      assert [] + ReadFloatItems(raw[i..], count).value.value == ReadFloatItems(raw[i..], count).value.value;
    }
    for k := 0 to count
      invariant next <= |raw|
      invariant ReadFloatItems(raw[i..], count) == OntoItems(items, ReadFloatItems(raw[next..], count - k))
    {
      var item, mid := CursorBits(raw, next);
      if item.Err? {
        return Err(item.error), next;
      }
      var longItem, end := CursorShort(raw, mid);
      if longItem.Err? {
        return Err(longItem.error), next;
      }
      var one := FloatEnumItem(item.value, longItem.value);
      ghost var others := ReadFloatItems(raw[end..], count - (k + 1));
      if others.Ok? {
        assert items + ([one] + others.value.value) == (items + [one]) + others.value.value;
      }
      items := items + [one];
      next := end;
    }
    assert items + [] == items;
    return Ok(items), next;
  }

  /** Parse a definition, keeping a copy of its bytes if asked to. */
  method FromBytes(raw: seq<Byte>, keepRaw: bool) returns (r: Result<NodeDef>)
    ensures keepRaw ==> r == ParseDef(raw)
    ensures !keepRaw ==> r == ReadDef(raw)
  {
    assert raw[0..] == raw;
    var header, i := CursorHeader(raw);
    if header.Err? {
      return Err(header.error);
    }
    r := CursorTyped(header.value, raw, i);
    if r.Ok? {
      TypedKeepsRaw(header.value, raw[i..]);
      if keepRaw {
        r := Ok(r.value.(raw := raw));
      }
    }
  }

  lemma TypedKeepsRaw(d: NodeDef, s: seq<Byte>)
    requires ReadTyped(d, s).Ok?
    ensures ReadTyped(d, s).value.raw == d.raw
  {
  }

  method CursorHeader(raw: seq<Byte>) returns (r: Result<NodeDef>, next: nat)
    ensures At(raw, ReadHeader(raw), r, next)
  {
    hide ReadI32, ReadU16, ReadShort, Plain;
    assert raw[0..] == raw;
    next := 0;
    var parentId, i1 := CursorI32(raw, 0);
    if parentId.Err? {
      return Err(parentId.error), 0;
    }
    var id, i2 := CursorI32(raw, i1);
    if id.Err? {
      return Err(id.error), 0;
    }
    var index, i3 := CursorU16(raw, i2);
    if index.Err? {
      return Err(index.error), 0;
    }
    var name, i4 := CursorShort(raw, i3);
    if name.Err? {
      return Err(name.error), 0;
    }
    var longName, i5 := CursorShort(raw, i4);
    if longName.Err? {
      return Err(longName.error), 0;
    }
    var flags, i6 := CursorU16(raw, i5);
    if flags.Err? {
      return Err(flags.error), 0;
    }
    return Ok(Plain(parentId.value, id.value, index.value, name.value, longName.value, flags.value)), i6;
  }

  method CursorTyped(d: NodeDef, raw: seq<Byte>, i: nat) returns (r: Result<NodeDef>)
    requires i <= |raw|
    ensures r == ReadTyped(d, raw[i..])
  {
    hide ReadI32, ReadU16, ReadShort, ReadRange, ReadStringItems, ReadFloatItems;
    match d.nodeType
    case Node =>
      return Ok(d);
    case UnknownType(_) =>
      return Ok(d);
    case StringNode =>
      var n, _ := CursorU16(raw, i);
      return if n.Err? then Err(n.error) else Ok(d.(maxStringLen := Some(n.value)));
    case LinearFloat =>
      r := CursorRange(d, raw, i);
    case LogarithmicFloat =>
      r := CursorRange(d, raw, i);
    case FaderLevel =>
      if |raw| - i >= 12 {
        r := CursorRange(d, raw, i);
      } else {
        return Ok(d);
      }
    case IntegerNode =>
      var lo, i1 := CursorI32(raw, i);
      if lo.Err? {
        return Err(lo.error);
      }
      var hi, _ := CursorI32(raw, i1);
      if hi.Err? {
        return Err(hi.error);
      }
      return Ok(d.(minInt := Some(lo.value), maxInt := Some(hi.value)));
    case StringEnum =>
      var num, i1 := CursorU16(raw, i);
      if num.Err? {
        return Err(num.error);
      }
      var items, _ := CursorStringItems(raw, i1, num.value);
      return if items.Err? then Err(items.error) else Ok(d.(stringEnum := Some(items.value)));
    case FloatEnum =>
      var num, i1 := CursorU16(raw, i);
      if num.Err? {
        return Err(num.error);
      }
      var items, _ := CursorFloatItems(raw, i1, num.value);
      return if items.Err? then Err(items.error) else Ok(d.(floatEnum := Some(items.value)));
  }

  method CursorRange(d: NodeDef, raw: seq<Byte>, i: nat) returns (r: Result<NodeDef>)
    requires i <= |raw|
    ensures r == ReadRange(d, raw[i..])
  {
    hide ReadI32, ReadBits;
    var lo, i1 := CursorBits(raw, i);
    if lo.Err? {
      return Err(lo.error);
    }
    var hi, i2 := CursorBits(raw, i1);
    if hi.Err? {
      return Err(hi.error);
    }
    var steps, _ := CursorI32(raw, i2);
    if steps.Err? {
      return Err(steps.error);
    }
    return Ok(d.(minFloat := Some(lo.value), maxFloat := Some(hi.value), steps := Some(steps.value)));
  }
}
