/** What a definition cut short parses to. */
module DefinitionCuts {
  import opened Basics
  import opened Utf8
  import opened Definitions

  // Each reader, given only the first `k` bytes: it fails if the cut falls inside what it
  // consumes, and otherwise reads the same value and leaves the rest cut.

  lemma CutU16(s: seq<Byte>, k: nat)
    requires k <= |s| && ReadU16(s).Ok?
    ensures ReadU16(s[..k]) ==
            if k < 2 then Err(InvalidData) else Ok(Read(ReadU16(s).value.value, s[2..][..k - 2]))
  {
    if k >= 2 {
      assert s[..k][..2] == s[..2] && s[..k][2..] == s[2..][..k - 2];
    }
  }

  lemma CutI32(s: seq<Byte>, k: nat)
    requires k <= |s| && |s| >= 4
    ensures ReadI32(s[..k]) ==
            if k < 4 then Err(InvalidData) else Ok(Read(ReadI32(s).value.value, s[4..][..k - 4]))
    ensures ReadBits(s[..k]) ==
            if k < 4 then Err(InvalidData) else Ok(Read(ReadBits(s).value.value, s[4..][..k - 4]))
  {
    if k >= 4 {
      assert s[..k][..4] == s[..4] && s[..k][4..] == s[4..][..k - 4];
    }
  }

  /** Bytes a length-prefixed text takes. */
  function ShortSize(s: seq<Byte>): nat
    requires ReadShort(s).Ok?
  {
    1 + |ReadShort(s).value.value|
  }

  lemma CutShort(s: seq<Byte>, k: nat)
    requires k <= |s| && ReadShort(s).Ok?
    ensures ShortSize(s) <= |s| && ReadShort(s).value.rest == s[ShortSize(s)..]
    ensures ReadShort(s[..k]) ==
            if k < ShortSize(s) then Err(InvalidData)
            else Ok(Read(ReadShort(s).value.value, s[ShortSize(s)..][..k - ShortSize(s)]))
  {
    var n := s[0] as int;
    assert s[1..][n..] == s[1 + n..];
    if k >= 1 {
      assert s[..k][1..] == s[1..k] && s[..k][0] == s[0];
    }
    if k >= 1 + n {
      assert s[1..k][..n] == s[1..][..n];
      assert s[1..k][n..] == s[1 + n..][..k - 1 - n];
    }
  }

  lemma {:induction false} CutStringItems(s: seq<Byte>, count: nat, k: nat)
    requires k < |s| && ReadStringItems(s, count).Ok? && ReadStringItems(s, count).value.rest == []
    requires count > 0
    ensures ReadStringItems(s[..k], count) == Err(InvalidData)
    decreases count
  {
    var item := ReadShort(s).value;
    CutShort(s, k);
    var m := ShortSize(s);
    if k >= m {
      var longItem := ReadShort(item.rest).value;
      CutShort(item.rest, k - m);
      var n := ShortSize(item.rest);
      if k - m >= n && count > 1 {
        CutStringItems(longItem.rest, count - 1, k - m - n);
      }
    }
  }

  lemma {:induction false} CutFloatItems(s: seq<Byte>, count: nat, k: nat)
    requires k < |s| && ReadFloatItems(s, count).Ok? && ReadFloatItems(s, count).value.rest == []
    requires count > 0
    ensures ReadFloatItems(s[..k], count) == Err(InvalidData)
    decreases count
  {
    var item := ReadBits(s).value;
    CutI32(s, k);
    if k >= 4 {
      var longItem := ReadShort(item.rest).value;
      CutShort(item.rest, k - 4);
      var n := ShortSize(item.rest);
      if k - 4 >= n && count > 1 {
        CutFloatItems(longItem.rest, count - 1, k - 4 - n);
      }
    }
  }

  /** A header cut short is rejected; a whole one is read whatever follows. */
  lemma CutHeader(d: NodeDef, typed: seq<Byte>, k: nat)
    requires Canonical(d) && k <= |HeaderBytes(d)| + |typed|
    ensures var s := HeaderBytes(d) + typed;
            ReadHeader(s[..k]) ==
            if k < |HeaderBytes(d)| then Err(InvalidData)
            else Ok(Read(Bare(d), typed[..k - |HeaderBytes(d)|]))
  {
    hide ReadHeader, Bare, StringItemsBytes, FloatItemsBytes;
    var header := HeaderBytes(d);
    var s := header + typed;
    if k >= |header| {
      assert s[..k] == header + typed[..k - |header|];
      ReadHeaderOf(d, typed[..k - |header|]);
    } else {
      HeaderTooShort(d, typed, k);
    }
  }

  /** The part of a header after its ten fixed bytes: two texts and the flags. */
  function ReadNames(s: seq<Byte>): Result<()> {
    var name :- ReadShort(s);
    var longName :- ReadShort(name.rest);
    var flags :- ReadU16(longName.rest);
    Ok(())
  }

  lemma NamesTooShort(d: NodeDef, typed: seq<Byte>, j: nat)
    requires Short(d.name) && Short(d.longName) && j < 4 + |d.name| + |d.longName|
    ensures ReadNames((ShortBytes(d.name) + (ShortBytes(d.longName) + (Be16(Flags(d)) + typed)))[..j])
         == Err(InvalidData)
  {
    hide ReadShort, Flags;
    var e := Be16(Flags(d)) + typed;
    var c := ShortBytes(d.longName) + e;
    var b := ShortBytes(d.name) + c;
    ReadShortOf(d.name, c);
    ReadShortOf(d.longName, e);
    CutShort(b, j);
    if j >= 1 + |d.name| {
      var m := j - 1 - |d.name|;
      CutShort(c, m);
      if m >= 1 + |d.longName| {
        CutU16(e, m - 1 - |d.longName|);
      }
    }
  }

  lemma HeaderNeedsNames(s: seq<Byte>)
    ensures ReadHeader(s) ==
            if |s| < 10 then Err(InvalidData)
            else if ReadNames(s[10..]).Err? then Err(ReadNames(s[10..]).error)
            else ReadHeader(s)
  {
    hide ReadShort;
    if |s| >= 10 {
      assert s[4..][4..] == s[8..] && s[8..][2..] == s[10..];
    } else if |s| >= 4 {
      assert |s| >= 8 ==> s[4..][4..] == s[8..];
    }
  }

  lemma HeaderTooShort(d: NodeDef, typed: seq<Byte>, k: nat)
    requires Short(d.name) && Short(d.longName) && k < |HeaderBytes(d)|
    ensures ReadHeader((HeaderBytes(d) + typed)[..k]) == Err(InvalidData)
  {
    hide ReadHeader, ReadNames, Flags;
    var names := ShortBytes(d.name) + (ShortBytes(d.longName) + (Be16(Flags(d)) + typed));
    var fixed := BeI32(d.parentId) + BeI32(d.id) + Be16(d.index);
    var s := HeaderBytes(d) + typed;
    assert s == fixed + names;
    HeaderNeedsNames(s[..k]);
    if k >= 10 {
      assert s[..k][10..] == names[..k - 10];
      NamesTooShort(d, typed, k - 10);
    }
  }

  lemma CutTyped(d: NodeDef, k: nat)
    requires Canonical(d) && TypedBytes(d).Ok? && k < |TypedBytes(d).value|
    ensures ReadTyped(Bare(d), TypedBytes(d).value[..k]) ==
            if d.nodeType.FaderLevel? then Ok(Bare(d)) else Err(InvalidData)
  {
    var t := TypedBytes(d).value;
    match d.nodeType
    case Node =>
    case UnknownType(_) =>
    case StringNode =>
    case LinearFloat => CutRange(Bare(d), t, k);
    case LogarithmicFloat => CutRange(Bare(d), t, k);
    case FaderLevel =>
    case IntegerNode =>
      CutI32(t, k);
      if k >= 4 {
        CutI32(t[4..], k - 4);
      }
    case StringEnum =>
      var items := StringItemsBytes(d.stringEnum.value).value;
      ReadU16Of(|d.stringEnum.value|, items);
      CutU16(t, k);
      assert t[2..] == items;
      if k >= 2 {
        ReadStringItemsOf(d.stringEnum.value, []);
        assert items + [] == items;
        CutStringItems(items, |d.stringEnum.value|, k - 2);
      }
    case FloatEnum =>
      var items := FloatItemsBytes(d.floatEnum.value).value;
      ReadU16Of(|d.floatEnum.value|, items);
      CutU16(t, k);
      assert t[2..] == items;
      if k >= 2 {
        ReadFloatItemsOf(d.floatEnum.value, []);
        assert items + [] == items;
        CutFloatItems(items, |d.floatEnum.value|, k - 2);
      }
  }

  lemma CutRange(d: NodeDef, s: seq<Byte>, k: nat)
    requires |s| == 12 && k < 12
    ensures ReadRange(d, s[..k]) == Err(InvalidData)
  {
    CutI32(s, k);
    if k >= 4 {
      CutI32(s[4..], k - 4);
      if k >= 8 {
        CutI32(s[4..][4..], k - 8);
      }
    }
  }

  /** A strict prefix of a canonical encoding is rejected, except a fader level cut inside its
      optional 12-byte range: that one parses as a fader level without a range. */
  lemma StrictPrefix(d: NodeDef, k: nat)
    requires Canonical(d) && DefBytes(d).Ok? && k < |DefBytes(d).value|
    ensures var s := DefBytes(d).value;
            if d.nodeType.FaderLevel? && HasRange(d) && k >= |s| - 12
            then ReadDef(s[..k]) == Ok(Bare(d))
            else ReadDef(s[..k]) == Err(InvalidData)
  {
    var typed := TypedBytes(d).value;
    CutHeader(d, typed, k);
    if k >= |HeaderBytes(d)| {
      CutTyped(d, k - |HeaderBytes(d)|);
    }
  }
}
