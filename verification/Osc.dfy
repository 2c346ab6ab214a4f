/** OSC 1.0 messages: 4-byte aligned strings, blobs and numbers behind a type tag string. */
module Osc {
  import opened Basics
  import opened Utf8

  const MAX_PACKET_BYTES: nat := 32 * 1024

  datatype OscError = Malformed | TooLarge(size: nat)

  datatype Outcome<+T> = Done(value: T) | Failed(error: OscError) {
    predicate IsFailure() {
      Failed?
    }

    function PropagateFailure<U>(): Outcome<U>
      requires Failed?
    {
      Failed(error)
    }

    function Extract(): T
      requires Done?
    {
      value
    }
  }

  datatype OscArg =
    | IntArg(n: Int32)
    | FloatArg(bits: Bits32)
    | StrArg(text: Text)
    | BlobArg(data: seq<Byte>)

  datatype OscMessage = OscMessage(addr: Text, args: seq<OscArg>)

  const SLASH: Byte := 0x2f
  const COMMA: Byte := 0x2c

  // ---------- layout ----------

  /** A byte at a fixed place, or padding whose content does not matter. */
  type Layout = seq<Option<Byte>>

  predicate Fits(bytes: seq<Byte>, l: Layout) {
    |bytes| == |l| && forall k :: 0 <= k < |l| && l[k].Some? ==> bytes[k] == l[k].value
  }

  function Fixed(bytes: seq<Byte>): (l: Layout)
    ensures |l| == |bytes|
  {
    seq(|bytes|, k requires 0 <= k < |bytes| => Some(bytes[k]))
  }

  function Padding(n: nat): (l: Layout)
    ensures |l| == n
  {
    seq(n, _ => None)
  }

  /** A length rounded up to a multiple of four. */
  function Aligned(n: nat): (r: nat)
    ensures n <= r < n + 4 && r % 4 == 0
  {
    (n + 3) / 4 * 4
  }

  /** A string, its terminator and its padding. */
  function StringLayout(s: seq<Byte>): (l: Layout)
    ensures |l| == Aligned(|s| + 1)
  {
    Fixed(s + [0]) + Padding(Aligned(|s| + 1) - |s| - 1)
  }

  function BlobLayout(data: seq<Byte>): (l: Layout)
    ensures |l| == 4 + Aligned(|data|)
  {
    Fixed(Be32(|data| % 0x1_0000_0000) + data) + Padding(Aligned(|data|) - |data|)
  }

  function ArgLayout(a: OscArg): Layout {
    match a
    case IntArg(n) => Fixed(BeI32(n))
    case FloatArg(bits) => Fixed(Be32(bits))
    case StrArg(text) => StringLayout(text)
    case BlobArg(data) => BlobLayout(data)
  }

  function ArgsLayout(args: seq<OscArg>): Layout {
    if args == [] then [] else ArgLayout(args[0]) + ArgsLayout(args[1..])
  }

  function TagOf(a: OscArg): Byte {
    match a
    case IntArg(_) => 0x69
    case FloatArg(_) => 0x66
    case StrArg(_) => 0x73
    case BlobArg(_) => 0x62
  }

  function Tags(args: seq<OscArg>): (tags: seq<Byte>)
    ensures |tags| == |args|
  {
    if args == [] then [] else [TagOf(args[0])] + Tags(args[1..])
  }

  /** A message; the tag string may be left out when there is nothing to tag. */
  function MessageLayout(m: OscMessage, tagged: bool): Layout {
    StringLayout(m.addr) + (if tagged then StringLayout([COMMA] + Tags(m.args)) else [])
    + ArgsLayout(m.args)
  }

  /** The bytes with zeros for padding. */
  function Zeroed(l: Layout): (bytes: seq<Byte>)
    ensures Fits(bytes, l)
  {
    seq(|l|, k requires 0 <= k < |l| => if l[k].Some? then l[k].value else 0)
  }

  // ---------- what can be represented ----------

  predicate NoNul(s: seq<Byte>) {
    0 !in s
  }

  predicate ArgOk(a: OscArg) {
    && (a.StrArg? ==> NoNul(a.text))
    && (a.BlobArg? ==> |a.data| < 0x8000_0000)
  }

  predicate ArgsOk(args: seq<OscArg>) {
    forall k :: 0 <= k < |args| ==> ArgOk(args[k])
  }

  predicate NulFree(m: OscMessage) {
    NoNul(m.addr) && forall k :: 0 <= k < |m.args| && m.args[k].StrArg? ==> NoNul(m.args[k].text)
  }

  function Encoding(m: OscMessage): seq<Byte> {
    Zeroed(MessageLayout(m, m.args != []))
  }

  /** The encoder's result. */
  function Encoded(m: OscMessage): Outcome<seq<Byte>> {
    if !NulFree(m) then Failed(Malformed)
    else if |Encoding(m)| > MAX_PACKET_BYTES then Failed(TooLarge(|Encoding(m)|))
    else Done(Encoding(m))
  }

  lemma ZeroedConcat(a: Layout, b: Layout)
    ensures Zeroed(a + b) == Zeroed(a) + Zeroed(b)
  {
  }

  lemma ZeroedParts(bytes: seq<Byte>, n: nat)
    ensures Zeroed(Fixed(bytes) + Padding(n)) == bytes + seq(n, _ => 0 as Byte)
    ensures Zeroed(Fixed(bytes)) == bytes
  {
  }

  // ---------- the encoder ----------

  /** `buf.resize(buf.len() + n, 0)` */
  method Resize(buf: seq<Byte>, n: nat) returns (out: seq<Byte>)
    ensures out == buf + seq(n, _ => 0 as Byte)
  {
    out := buf + seq(n, _ => 0 as Byte);
  }

  method PushOscString(buf: seq<Byte>, s: seq<Byte>) returns (out: seq<Byte>)
    ensures out == buf + Zeroed(StringLayout(s))
  {
    var paddedTotal := (|s| + 1 + 3) / 4 * 4;
    out := Resize(buf + s, paddedTotal - |s|);
    ZeroedParts(s + [0], Aligned(|s| + 1) - |s| - 1);
    assert s + seq(paddedTotal - |s|, _ => 0 as Byte) == s + [0] + seq(paddedTotal - |s| - 1, _ => 0 as Byte);
  }

  method PushOscBlob(buf: seq<Byte>, data: seq<Byte>) returns (out: seq<Byte>)
    ensures out == buf + Zeroed(BlobLayout(data))
  {
    hide Be32, Aligned, Zeroed;
    var head := Be32(|data| % 0x1_0000_0000);
    var pad := (4 - |data| % 4) % 4;
    out := Resize(buf + head + data, pad);
    PadAligns(|data|);
    ZeroedParts(head + data, pad);
    assert out == buf + (head + data + seq(pad, _ => 0 as Byte));
  }

  lemma PadAligns(size: nat)
    ensures size + (4 - size % 4) % 4 == Aligned(size)
  {
  }

  method PushArg(buf: seq<Byte>, a: OscArg) returns (out: seq<Byte>)
    ensures out == buf + Zeroed(ArgLayout(a))
  {
    match a
    case IntArg(n) =>
      ZeroedParts(BeI32(n), 0);
      out := buf + BeI32(n);
    case FloatArg(bits) =>
      ZeroedParts(Be32(bits), 0);
      out := buf + Be32(bits);
    case StrArg(text) => out := PushOscString(buf, text);
    case BlobArg(data) => out := PushOscBlob(buf, data);
  }

  method Encode(m: OscMessage) returns (r: Outcome<seq<Byte>>)
    ensures r == Encoded(m)
  {
    hide Zeroed, StringLayout, ArgLayout;
    if 0 in m.addr {
      return Failed(Malformed);
    }
    for k := 0 to |m.args|
      invariant forall j :: 0 <= j < k && m.args[j].StrArg? ==> NoNul(m.args[j].text)
    {
      if m.args[k].StrArg? && 0 in m.args[k].text {
        return Failed(Malformed);
      }
    }
    var buf := PushOscString([], m.addr);
    if m.args != [] {
      buf := PushTagged(buf, m.args);
    }
    EncodingParts(m);
    if |buf| > MAX_PACKET_BYTES {
      return Failed(TooLarge(|buf|));
    }
    return Done(buf);
  }

  lemma EncodingParts(m: OscMessage)
    ensures m.args == [] ==> Encoding(m) == [] + Zeroed(StringLayout(m.addr))
    ensures m.args != [] ==>
              Encoding(m) == [] + Zeroed(StringLayout(m.addr))
                             + Zeroed(StringLayout([COMMA] + Tags(m.args))) + Zeroed(ArgsLayout(m.args))
  {
    hide Zeroed, StringLayout;
    var addr, tags, args := StringLayout(m.addr), StringLayout([COMMA] + Tags(m.args)), ArgsLayout(m.args);
    if m.args == [] {
      assert addr + [] + [] == addr;
    } else {
      ZeroedConcat(addr + tags, args);
      ZeroedConcat(addr, tags);
    }
  }

  /** The tag string and the arguments. */
  method PushTagged(buf: seq<Byte>, args: seq<OscArg>) returns (out: seq<Byte>)
    ensures out == buf + Zeroed(StringLayout([COMMA] + Tags(args))) + Zeroed(ArgsLayout(args))
  {
    hide Zeroed, StringLayout, ArgLayout;
    var tag := [COMMA];
    assert args[0..] == args;
    for k := 0 to |args|
      invariant tag + Tags(args[k..]) == [COMMA] + Tags(args)
    {
      assert args[k..][1..] == args[k + 1..];
      tag := tag + [TagOf(args[k])];
    }
    out := PushOscString(buf, tag);
    assert tag == [COMMA] + Tags(args);
    ghost var start := out;
    for k := 0 to |args|
      invariant out + Zeroed(ArgsLayout(args[k..])) == start + Zeroed(ArgsLayout(args))
    {
      assert args[k..][1..] == args[k + 1..];
      ZeroedConcat(ArgLayout(args[k]), ArgsLayout(args[k + 1..]));
      ghost var before, arg, rest := out, Zeroed(ArgLayout(args[k])), Zeroed(ArgsLayout(args[k + 1..]));
      out := PushArg(out, args[k]);
      assert before + (arg + rest) == (before + arg) + rest;
    }
    ZeroedNothing();
    assert out + [] == out;
  }

  lemma ZeroedNothing()
    ensures Zeroed(ArgsLayout([])) == []
  {
  }
}
