/** Decoding OSC messages, and what exactly is accepted. */
module OscDecode {
  import opened Basics
  import opened Utf8
  import opened Osc

  // ---------- what the front of some bytes holds ----------

  /** Where the first NUL is; the length if there is none. */
  function NulAt(s: seq<Byte>): (k: nat)
    ensures k <= |s| && (forall j :: 0 <= j < k ==> s[j] != 0) && (k < |s| ==> s[k] == 0)
  {
    if s == [] || s[0] == 0 then 0 else 1 + NulAt(s[1..])
  }

  /** A string at the front, and the bytes it takes. */
  function StringAt(s: seq<Byte>): (r: Outcome<(Text, nat)>)
    ensures r.Done? ==> 0 < r.value.1 <= |s| && r.value.1 % 4 == 0
    ensures r.Failed? ==> r == Failed(Malformed)
  {
    var k := NulAt(s);
    if k == |s| || !ValidUtf8(s[..k]) || Aligned(k + 1) > |s| then Failed(Malformed)
    else Done((s[..k], Aligned(k + 1)))
  }

  function BlobAt(s: seq<Byte>): (r: Outcome<(seq<Byte>, nat)>)
    ensures r.Done? ==> r.value.1 <= |s| && r.value.1 % 4 == 0
    ensures r.Failed? ==> r == Failed(Malformed)
  {
    if |s| < 4 || FromBeI32(s[..4]) < 0 then Failed(Malformed) else BlobOf(s, FromBeI32(s[..4]))
  }

  function BlobOf(s: seq<Byte>, size: nat): (r: Outcome<(seq<Byte>, nat)>)
    ensures r.Done? ==> r.value.1 <= |s| && r.value.1 % 4 == 0
    ensures r.Failed? ==> r == Failed(Malformed)
  {
    if 4 + Aligned(size) > |s| then Failed(Malformed)
    else Done((s[4..4 + size], 4 + Aligned(size)))
  }

  function ArgAt(tag: Byte, s: seq<Byte>): (r: Outcome<(OscArg, nat)>)
    ensures r.Done? ==> r.value.1 <= |s| && r.value.1 % 4 == 0
    ensures r.Failed? ==> r == Failed(Malformed)
  {
    if tag == 0x69 then (if |s| < 4 then Failed(Malformed) else Done((IntArg(FromBeI32(s[..4])), 4)))
    else if tag == 0x66 then (if |s| < 4 then Failed(Malformed) else Done((FloatArg(FromBe32(s[..4])), 4)))
    else if tag == 0x73 then (var r :- StringAt(s); Done((StrArg(r.0), r.1)))
    else if tag == 0x62 then (var r :- BlobAt(s); Done((BlobArg(r.0), r.1)))
    else Failed(Malformed)
  }

  /** Arguments for all tags, using up every byte. */
  function ArgsAt(tags: seq<Byte>, s: seq<Byte>): Outcome<seq<OscArg>> {
    if tags == [] then (if s == [] then Done([]) else Failed(Malformed))
    else
      var first :- ArgAt(tags[0], s);
      var rest :- ArgsAt(tags[1..], s[first.1..]);
      Done([first.0] + rest)
  }

  function Decoded(s: seq<Byte>): Outcome<OscMessage> {
    var addr :- StringAt(s);
    if addr.0 == [] || addr.0[0] != SLASH then Failed(Malformed)
    else if addr.1 == |s| then Done(OscMessage(addr.0, []))
    else
      var rest := s[addr.1..];
      var tag :- StringAt(rest);
      if tag.0 == [] || tag.0[0] != COMMA then Failed(Malformed)
      else
        var args :- ArgsAt(tag.0[1..], rest[tag.1..]);
        Done(OscMessage(addr.0, args))
  }

  // ---------- the decoder ----------

  method ReadOscString(bytes: seq<Byte>, i: nat) returns (r: Outcome<Text>, next: nat)
    requires i <= |bytes|
    ensures match StringAt(bytes[i..])
            case Done((s, n)) => r == Done(s) && next == i + n
            case Failed(e) => r == Failed(e)
  {
    hide Aligned;
    next := i;
    var nul := 0;
    assert bytes[i..][0..] == bytes[i..];
    while nul < |bytes| - i && bytes[i + nul] != 0
      invariant nul <= |bytes| - i && NulAt(bytes[i..]) == nul + NulAt(bytes[i..][nul..])
      decreases |bytes| - nul
    {
      assert bytes[i..][nul..][1..] == bytes[i..][nul + 1..];
      nul := nul + 1;
    }
    assert NulAt(bytes[i..]) == nul;
    if nul == |bytes| - i {
      return Failed(Malformed), i;
    }
    var s := bytes[i..i + nul];
    assert s == bytes[i..][..nul];
    if !ValidUtf8(s) {
      return Failed(Malformed), i;
    }
    var paddedTotal := Aligned(nul + 1);
    if i + paddedTotal > |bytes| {
      return Failed(Malformed), i;
    }
    return Done(s), i + paddedTotal;
  }

  /** Four bytes at the cursor. */
  method ReadWord(bytes: seq<Byte>, i: nat) returns (r: Outcome<seq<Byte>>, next: nat)
    requires i <= |bytes|
    ensures if i + 4 > |bytes| then r == Failed(Malformed)
            else r == Done(bytes[i..][..4]) && next == i + 4
  {
    if i + 4 > |bytes| {
      return Failed(Malformed), i;
    }
    assert bytes[i..][..4] == bytes[i..i + 4];
    return Done(bytes[i..i + 4]), i + 4;
  }

  method ReadBlob(bytes: seq<Byte>, i: nat) returns (r: Outcome<seq<Byte>>, next: nat)
    requires i <= |bytes|
    ensures match BlobAt(bytes[i..])
            case Done((data, n)) => r == Done(data) && next == i + n
            case Failed(e) => r == Failed(e)
  {
    hide FromBeI32, Aligned, Be32;
    var word;
    word, next := ReadWord(bytes, i);
    if word.Failed? {
      return Failed(Malformed), i;
    }
    var size: int := FromBeI32(word.value);
    if size < 0 || next + size > |bytes| {
      return Failed(Malformed), i;
    }
    var data := bytes[next..next + size];
    assert data == bytes[i..][4..4 + size];
    next := next + size;
    var pad := (4 - size % 4) % 4;
    PadAligns(size);
    if next + pad > |bytes| {
      return Failed(Malformed), i;
    }
    return Done(data), next + pad;
  }

  method ReadArg(bytes: seq<Byte>, i: nat, tag: Byte) returns (r: Outcome<OscArg>, next: nat)
    requires i <= |bytes|
    ensures match ArgAt(tag, bytes[i..])
            case Done((a, n)) => r == Done(a) && next == i + n
            case Failed(e) => r == Failed(e)
  {
    hide StringAt, BlobAt, FromBe32, FromBeI32;
    next := i;
    if tag == 0x69 || tag == 0x66 {
      var word;
      word, next := ReadWord(bytes, i);
      if word.Failed? {
        return Failed(Malformed), i;
      }
      r := Done(if tag == 0x69 then IntArg(FromBeI32(word.value)) else FloatArg(FromBe32(word.value)));
    } else if tag == 0x73 {
      var s;
      s, next := ReadOscString(bytes, i);
      r := if s.Done? then Done(StrArg(s.value)) else Failed(s.error);
    } else if tag == 0x62 {
      var data;
      data, next := ReadBlob(bytes, i);
      r := if data.Done? then Done(BlobArg(data.value)) else Failed(data.error);
    } else {
      r := Failed(Malformed);
    }
  }

  /** Add arguments in front of a result. */
  function Behind(front: seq<OscArg>, r: Outcome<seq<OscArg>>): Outcome<seq<OscArg>> {
    if r.Done? then Done(front + r.value) else r
  }

  method ReadArgs(bytes: seq<Byte>, start: nat, tags: seq<Byte>) returns (r: Outcome<seq<OscArg>>)
    requires start <= |bytes|
    ensures r == ArgsAt(tags, bytes[start..])
  {
    hide ArgAt;
    var i := start;
    var args: seq<OscArg> := [];
    assert tags[0..] == tags;
    BehindNothing(ArgsAt(tags, bytes[start..]));
    for k := 0 to |tags|
      invariant start <= i <= |bytes|
      invariant ArgsAt(tags, bytes[start..]) == Behind(args, ArgsAt(tags[k..], bytes[i..]))
    {
      var arg, next := ReadArg(bytes, i, tags[k]);
      if arg.Failed? {
        return Failed(arg.error);
      }
      assert tags[k..][1..] == tags[k + 1..] && bytes[i..][next - i..] == bytes[next..];
      BehindTwice(args, arg.value, ArgsAt(tags[k + 1..], bytes[next..]));
      args := args + [arg.value];
      i := next;
    }
    assert args + [] == args;
    return if i != |bytes| then Failed(Malformed) else Done(args);
  }

  lemma BehindNothing(r: Outcome<seq<OscArg>>)
    ensures Behind([], r) == r
  {
    assert r.Done? ==> [] + r.value == r.value;
  }

  lemma BehindTwice(args: seq<OscArg>, a: OscArg, r: Outcome<seq<OscArg>>)
    ensures r.Done? ==> Behind(args, Done([a] + r.value)) == Behind(args + [a], r)
  {
    assert r.Done? ==> args + ([a] + r.value) == (args + [a]) + r.value;
  }

  /** Decode a packet. Every cursor stays inside the packet, whatever it holds. */
  method Decode(bytes: seq<Byte>) returns (r: Outcome<OscMessage>)
    ensures r == Decoded(bytes)
  {
    hide StringAt, ArgsAt;
    assert bytes[0..] == bytes;
    var addr, i := ReadOscString(bytes, 0);
    if addr.Failed? {
      return Failed(addr.error);
    }
    if addr.value == [] || addr.value[0] != SLASH {
      return Failed(Malformed);
    }
    if i >= |bytes| {
      return Done(OscMessage(addr.value, []));
    }
    var tag, next := ReadOscString(bytes, i);
    if tag.Failed? {
      return Failed(tag.error);
    }
    if tag.value == [] || tag.value[0] != COMMA {
      return Failed(Malformed);
    }
    assert bytes[i..][next - i..] == bytes[next..];
    var args := ReadArgs(bytes, next, tag.value[1..]);
    return if args.Done? then Done(OscMessage(addr.value, args.value)) else Failed(args.error);
  }

  // ---------- what is accepted, exactly ----------

  lemma FitsConcat(s: seq<Byte>, a: Layout, b: Layout)
    ensures Fits(s, a + b) <==> |s| == |a| + |b| && Fits(s[..|a|], a) && Fits(s[|a|..], b)
  {
    if |s| == |a| + |b| {
      var l := a + b;
      assert forall k :: 0 <= k < |a| ==> l[k] == a[k] && s[..|a|][k] == s[k];
      assert forall k :: 0 <= k < |b| ==> l[|a| + k] == b[k] && s[|a|..][k] == s[|a| + k];
      if Fits(s[..|a|], a) && Fits(s[|a|..], b) {
        forall k | 0 <= k < |l| && l[k].Some? ensures s[k] == l[k].value {
          if k >= |a| {
            assert l[k] == b[k - |a|];
          }
        }
      }
    }
  }

  lemma FitsFixed(s: seq<Byte>, bytes: seq<Byte>, n: nat)
    ensures Fits(s, Fixed(bytes) + Padding(n)) <==> |s| == |bytes| + n && s[..|bytes|] == bytes
    ensures Fits(s, Fixed(bytes)) <==> s == bytes
  {
    FitsConcat(s, Fixed(bytes), Padding(n));
  }

  /** A string is read exactly where its layout fits. */
  lemma StringAtIff(s: seq<Byte>, t: Text, n: nat)
    ensures StringAt(s) == Done((t, n)) <==>
              NoNul(t) && n == Aligned(|t| + 1) <= |s| && Fits(s[..n], StringLayout(t))
  {
    if n <= |s| && n == Aligned(|t| + 1) {
      FitsFixed(s[..n], t + [0], n - |t| - 1);
      hide Fits, StringLayout, Aligned, ValidUtf8;
      assert s[..n][..|t| + 1] == s[..|t| + 1];
      if NoNul(t) && s[..|t| + 1] == t + [0] {
        assert s[..|t|] == t && s[|t|] == 0;
        assert forall j :: 0 <= j < |t| ==> s[j] == t[j] && t[j] in t;
        assert NulAt(s) == |t|;
      }
      if StringAt(s) == Done((t, n)) {
        assert s[..|t| + 1] == t + [0];
      }
    }
  }

  lemma BlobAtIff(s: seq<Byte>, data: seq<Byte>, n: nat)
    ensures BlobAt(s) == Done((data, n)) <==>
              |data| < 0x8000_0000 && n == 4 + Aligned(|data|) <= |s| && Fits(s[..n], BlobLayout(data))
  {
    if n == 4 + Aligned(|data|) <= |s| {
      BlobLayoutFits(s, data, n);
      hide Fits, BlobLayout, Aligned;
      SizeIff(s[..4], |data|);
      hide FromBeI32, Be32;
    }
  }

  lemma SizeIff(word: seq<Byte>, size: nat)
    requires |word| == 4
    ensures FromBeI32(word) == size <==> size < 0x8000_0000 && word == Be32(size % 0x1_0000_0000)
  {
    FromBeI32RoundTrip(word);
    if size < 0x8000_0000 {
      BeI32RoundTrip(size);
      assert size % 0x1_0000_0000 == size;
    }
    hide FromBeI32, Be32;
  }

  lemma BlobLayoutFits(s: seq<Byte>, data: seq<Byte>, n: nat)
    requires 4 <= n <= |s| && n == 4 + Aligned(|data|)
    ensures Fits(s[..n], BlobLayout(data)) <==>
              s[..4] == Be32(|data| % 0x1_0000_0000) && s[4..4 + |data|] == data
  {
    var head := Be32(|data| % 0x1_0000_0000);
    FitsFixed(s[..n], head + data, n - 4 - |data|);
    assert 4 + |data| <= n;
    hide Fits, Aligned, Be32;
    assert s[..n][..4 + |data|] == s[..4 + |data|];
    assert s[..4 + |data|] == s[..4] + s[4..4 + |data|];
  }

  lemma ArgAtIff(s: seq<Byte>, tag: Byte, a: OscArg, n: nat)
    ensures ArgAt(tag, s) == Done((a, n)) <==>
              && tag == TagOf(a) && ArgOk(a)
              && n == |ArgLayout(a)| <= |s| && Fits(s[..n], ArgLayout(a))
  {
    match a {
      case IntArg(v) =>
        BeI32RoundTrip(v);
        if |s| >= 4 {
          FromBeI32RoundTrip(s[..4]);
          FitsFixed(s[..4], BeI32(v), 0);
        }
        hide FromBeI32, BeI32, Fits, Fixed, StringAt, BlobAt;
      case FloatArg(v) =>
        Be32RoundTrip(v);
        if |s| >= 4 {
          FromBe32RoundTrip(s[..4]);
          FitsFixed(s[..4], Be32(v), 0);
        }
        hide FromBe32, Be32, Fits, Fixed, StringAt, BlobAt;
      case StrArg(text) =>
        StringAtIff(s, text, n);
        hide StringAt, BlobAt, Fits, StringLayout;
      case BlobArg(data) =>
        BlobAtIff(s, data, n);
        hide StringAt, BlobAt, Fits, BlobLayout;
    }
  }

  lemma {:induction false} ArgsAtIff(s: seq<Byte>, tags: seq<Byte>, args: seq<OscArg>)
    ensures ArgsAt(tags, s) == Done(args) <==>
              tags == Tags(args) && ArgsOk(args) && Fits(s, ArgsLayout(args))
    decreases |tags| + |args|
  {
    hide ArgAt, ArgLayout, Fits, ArgOk;
    FitsNothing(s);
    if tags != [] && args != [] {
      var n := |ArgLayout(args[0])|;
      FitsConcat(s, ArgLayout(args[0]), ArgsLayout(args[1..]));
      ArgAtIff(s, tags[0], args[0], n);
      assert args == [args[0]] + args[1..] && tags == [tags[0]] + tags[1..];
      assert ArgsOk(args) <==> ArgOk(args[0]) && ArgsOk(args[1..]) by {
        assert forall k :: 0 <= k < |args[1..]| ==> args[1..][k] == args[k + 1];
        assert forall k :: 1 <= k < |args| ==> args[k] == args[1..][k - 1];
      }
      FitsLength(s, ArgsLayout(args));
      if n <= |s| {
        FitsLength(s[n..], ArgsLayout(args[1..]));
        ArgsAtIff(s[n..], tags[1..], args[1..]);
      }
      if ArgsAt(tags, s) == Done(args) {
        var (a, size) := ArgAt(tags[0], s).value;
        var rest := ArgsAt(tags[1..], s[size..]).value;
        assert args == [a] + rest;
        assert a == args[0] && rest == args[1..];
        ArgAtIff(s, tags[0], a, size);
      }
    }
  }

  lemma FitsLength(s: seq<Byte>, l: Layout)
    ensures Fits(s, l) ==> |s| == |l|
  {
  }

  lemma FitsNothing(s: seq<Byte>)
    ensures Fits(s, ArgsLayout([])) <==> s == []
  {
  }

  /** Messages a packet can stand for. */
  predicate IsMessage(m: OscMessage) {
    m.addr != [] && m.addr[0] == SLASH && NoNul(m.addr) && ArgsOk(m.args)
  }

  lemma TagsAreText(args: seq<OscArg>)
    ensures ValidUtf8([COMMA] + Tags(args)) && NoNul([COMMA] + Tags(args))
  {
    TagsAreAscii(args);
    AsciiIsUtf8([COMMA] + Tags(args));
  }

  lemma {:induction false} TagsAreAscii(args: seq<OscArg>)
    ensures forall b <- Tags(args) :: 0 < b <= 0x7f
  {
    if args != [] {
      TagsAreAscii(args[1..]);
    }
  }

  /** The tagged part of a packet, behind the address. */
  lemma TaggedIff(rest: seq<Byte>, args: seq<OscArg>)
    ensures Fits(rest, StringLayout([COMMA] + Tags(args)) + ArgsLayout(args)) && ArgsOk(args) <==>
              && StringAt(rest).Done? && StringAt(rest).value.0 == [COMMA] + Tags(args)
              && ArgsAt(Tags(args), rest[StringAt(rest).value.1..]) == Done(args)
  {
    TagsAreText(args);
    var tag: Text := [COMMA] + Tags(args);
    var l, n := StringLayout(tag), Aligned(|tag| + 1);
    hide StringLayout, ArgsLayout, Fits, Aligned, ArgsAt, StringAt, Tags, ArgsOk;
    FitsConcat(rest, l, ArgsLayout(args));
    FitsLength(rest, l + ArgsLayout(args));
    StringAtIff(rest, tag, n);
    if n <= |rest| {
      ArgsAtIff(rest[n..], Tags(args), args);
      FitsLength(rest[n..], ArgsLayout(args));
    }
    if StringAt(rest).Done? && StringAt(rest).value.0 == tag {
      StringAtIff(rest, tag, StringAt(rest).value.1);
    }
  }

  /** A packet decodes to a message exactly if it is that message, tagged or, without arguments,
      bare, with any bytes for padding. */
  lemma DecodedIff(s: seq<Byte>, m: OscMessage)
    ensures Decoded(s) == Done(m) <==>
              IsMessage(m)
              && (Fits(s, MessageLayout(m, true)) || (m.args == [] && Fits(s, MessageLayout(m, false))))
  {
    hide StringLayout, ArgsLayout, Fits, Aligned, ArgsAt, StringAt, Tags, Decoded;
    DecodedNeedsAddress(s, m);
    var l, n := StringLayout(m.addr), Aligned(|m.addr| + 1);
    var tagged := StringLayout([COMMA] + Tags(m.args)) + ArgsLayout(m.args);
    assert l + StringLayout([COMMA] + Tags(m.args)) + ArgsLayout(m.args) == l + tagged;
    NoArgs();
    assert m.args == [] ==> MessageLayout(m, false) == l;
    FitsConcat(s, l, tagged);
    FitsLength(s, l + tagged);
    FitsLength(s, l);
    StringAtIff(s, m.addr, n);
    if StringAt(s).Done? {
      StringAtIff(s, StringAt(s).value.0, StringAt(s).value.1);
    }
    if n <= |s| {
      TaggedIff(s[n..], m.args);
      FitsLength(s[n..], tagged);
      assert n == |s| ==> s[..n] == s;
      assert s[..n] + s[n..] == s;
      if StringAt(s) == Done((m.addr, n)) {
        DecodedBehindAddress(s, m, n);
      }
    }
  }

  lemma NoArgs()
    ensures ArgsLayout([]) == []
  {
  }

  lemma DecodedNeedsAddress(s: seq<Byte>, m: OscMessage)
    ensures Decoded(s) == Done(m) ==> StringAt(s).Done? && StringAt(s).value.0 == m.addr
  {
  }

  lemma DecodedBehindAddress(s: seq<Byte>, m: OscMessage, n: nat)
    requires n <= |s| && StringAt(s) == Done((m.addr, n))
    ensures Decoded(s) == Done(m) <==>
              && m.addr != [] && m.addr[0] == SLASH
              && if n == |s| then m.args == []
                 else
                   && StringAt(s[n..]).Done? && StringAt(s[n..]).value.0 == [COMMA] + Tags(m.args)
                   && ArgsAt(Tags(m.args), s[n..][StringAt(s[n..]).value.1..]) == Done(m.args)
  {
    hide ArgsAt, ArgsLayout;
    if n < |s| && StringAt(s[n..]).Done? {
      var (tag, size) := StringAt(s[n..]).value;
      if tag != [] && tag[0] == COMMA {
        ArgsAtIff(s[n..][size..], tag[1..], m.args);
        assert tag == [COMMA] + tag[1..];
      }
      assert ([COMMA] + Tags(m.args))[1..] == Tags(m.args);
    }
  }

  /** Decoding what was encoded gives the message back exactly if its address starts with a
      slash; any other address is refused. */
  lemma RoundTrip(m: OscMessage)
    requires Encoded(m).Done?
    ensures var bytes := Encoded(m).value;
            if m.addr != [] && m.addr[0] == SLASH then Decoded(bytes) == Done(m)
            else Decoded(bytes) == Failed(Malformed)
  {
    var bytes := Encoded(m).value;
    EncodedBlobs(m);
    assert ArgsOk(m.args);
    hide ArgsLayout, StringLayout, Zeroed, Decoded, MessageLayout;
    DecodedIff(bytes, m);
    if m.addr == [] || m.addr[0] != SLASH {
      OnlyOneAddress(bytes, m);
    }
  }

  lemma EncodedBlobs(m: OscMessage)
    ensures forall k :: 0 <= k < |m.args| && m.args[k].BlobArg? ==>
              |m.args[k].data| <= |MessageLayout(m, m.args != [])|
  {
    hide StringLayout, ArgLayout;
    forall k | 0 <= k < |m.args| && m.args[k].BlobArg?
      ensures |m.args[k].data| <= |ArgsLayout(m.args)|
    {
      ArgInside(m.args, k);
    }
  }

  lemma {:induction false} ArgInside(args: seq<OscArg>, k: nat)
    requires k < |args|
    ensures |ArgLayout(args[k])| <= |ArgsLayout(args)|
    ensures args[k].BlobArg? ==> |args[k].data| <= |ArgLayout(args[k])|
    decreases |args|
  {
    if k > 0 {
      ArgInside(args[1..], k - 1);
    }
  }

  lemma OnlyOneAddress(s: seq<Byte>, m: OscMessage)
    requires Fits(s, MessageLayout(m, m.args != [])) && NoNul(m.addr)
    requires m.addr == [] || m.addr[0] != SLASH
    ensures Decoded(s) == Failed(Malformed)
  {
    var l := StringLayout(m.addr);
    var rest := (if m.args != [] then StringLayout([COMMA] + Tags(m.args)) else []) + ArgsLayout(m.args);
    hide StringLayout, ArgsLayout, Fits, Aligned, ArgsAt, StringAt, Tags;
    assert MessageLayout(m, m.args != []) == l + rest;
    FitsConcat(s, l, rest);
    FitsLength(s, l + rest);
    StringAtIff(s, m.addr, |l|);
  }

  /** Every field starts at a multiple of four: the tag string, each argument, and the end. */
  lemma FieldsAreAligned(m: OscMessage, k: nat)
    requires k <= |m.args|
    ensures |StringLayout(m.addr)| % 4 == 0
    ensures (|StringLayout(m.addr)| + |StringLayout([COMMA] + Tags(m.args))| + |ArgsLayout(m.args[..k])|) % 4 == 0
    ensures |Encoding(m)| % 4 == 0
  {
    hide Aligned, ArgsLayout, StringLayout, Tags;
    ArgsAligned(m.args[..k]);
    ArgsAligned(m.args);
    StringAligned(m.addr);
    StringAligned([COMMA] + Tags(m.args));
    var a, t, all := |StringLayout(m.addr)|, |StringLayout([COMMA] + Tags(m.args))|, |ArgsLayout(m.args)|;
    assert |Encoding(m)| == a + (if m.args != [] then t else 0) + all;
  }

  lemma StringAligned(s: seq<Byte>)
    ensures |StringLayout(s)| % 4 == 0
  {
  }

  lemma {:induction false} ArgsAligned(args: seq<OscArg>)
    ensures |ArgsLayout(args)| % 4 == 0
  {
    hide ArgLayout;
    if args != [] {
      ArgsAligned(args[1..]);
      ArgAligned(args[0]);
    }
  }

  lemma ArgAligned(a: OscArg)
    ensures |ArgLayout(a)| % 4 == 0
  {
    hide StringLayout, BlobLayout, Be32, Fixed;
    match a
    case IntArg(_) =>
    case FloatArg(_) =>
    case StrArg(text) => StringAligned(text);
    case BlobArg(data) =>
  }
}
