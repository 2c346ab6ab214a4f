/** The Native token grammar. The server's request decoder, the client's response reader and
    the binary-node parser are three separate programs over this one grammar; each is stated
    against it. */
module Tokens {
  import opened Basics
  import opened Utf8

  /** A typed value, shared by request decoding and response encoding. */
  datatype NativeValue =
    | Integer(n: Int32)
    | Float(bits: Bits32)
    | RawFloat(bits: Bits32)
    | Str(text: Text)

  datatype Token =
    | Num(n: Int32)
    | Real(bits: Bits32, raw: bool)
    | Chars(bytes: seq<Byte>)
    | PathIndex(index: U32)
    | PathName(bytes: seq<Byte>)
    | SelectId(id: Int32)
    | Click
    | Step(amount: Byte)
    | GoRoot
    | GoUp
    | WantData
    | WantDefinition
    | Other(opcode: Byte)

  datatype Scan =
    | Partial
    | Complete(token: Token, size: nat)

  /** Bytes the token at the front of `s` needs, as far as the bytes present can tell: only a
      0xd1 string needs a second byte to know its length. */
  function TokenSize(s: seq<Byte>): (n: nat)
    requires |s| > 0
    ensures n >= 1
  {
    var op := s[0];
    if 0x80 <= op <= 0xbf then op as int - 0x7f + 1
    else if 0xc0 <= op <= 0xcf then op as int - 0xbf + 1
    else if op == 0xd1 then (if |s| == 1 then 2 else 2 + s[1] as int + 1)
    else if op == 0xd2 || op == 0xd3 then 3
    else if 0xd4 <= op <= 0xd7 then 5
    else if op == 0xd9 then 2
    else 1
  }

  function Tokenize(t: seq<Byte>): Token
    requires |t| > 0 && |t| == TokenSize(t)
  {
    var op := t[0];
    if op <= 0x3f then Num(op as int)
    else if op <= 0x7f then PathIndex(op as int - 0x3f)
    else if op <= 0xbf then Chars(t[1..])
    else if op <= 0xcf then PathName(t[1..])
    else if op == 0xd0 then Chars([])
    else if op == 0xd1 then Chars(t[2..])
    else if op == 0xd2 then PathIndex(FromBe16(t[1..]) + 1)
    else if op == 0xd3 then Num(Signed16(FromBe16(t[1..])))
    else if op == 0xd4 then Num(FromBeI32(t[1..]))
    else if op == 0xd5 then Real(FromBe32(t[1..]), false)
    else if op == 0xd6 then Real(FromBe32(t[1..]), true)
    else if op == 0xd7 then SelectId(FromBeI32(t[1..]))
    else if op == 0xd8 then Click
    else if op == 0xd9 then Step(t[1])
    else if op == 0xda then GoRoot
    else if op == 0xdb then GoUp
    else if op == 0xdc then WantData
    else if op == 0xdd then WantDefinition
    else Other(op)
  }

  /** The first token of `s`, if all of it is there. */
  function NextToken(s: seq<Byte>): (r: Scan)
    ensures r.Complete? ==> 0 < r.size <= |s|
  {
    if s == [] || |s| < TokenSize(s) then Partial
    else
      TokenSizeOfSelf(s);
      Complete(Tokenize(s[..TokenSize(s)]), TokenSize(s))
  }

  lemma TokenSizeOfSelf(s: seq<Byte>)
    requires |s| > 0 && TokenSize(s) <= |s|
    ensures TokenSize(s[..TokenSize(s)]) == TokenSize(s)
  {
  }

  /** No token is longer than a 256-byte string with its two-byte header. */
  lemma TokenSizeBound(s: seq<Byte>)
    requires |s| > 0
    ensures TokenSize(s) <= 258
  {
  }

  /** A complete token is recognised whatever follows it. */
  lemma NextTokenStable(s: seq<Byte>, rest: seq<Byte>)
    requires NextToken(s).Complete?
    ensures NextToken(s + rest) == NextToken(s)
  {
    var n := TokenSize(s);
    assert TokenSize(s + rest) == n;
    assert (s + rest)[..n] == s[..n];
  }

  /** A token completes exactly with its last byte: no strict prefix of it is a token. */
  lemma NextTokenPrefix(s: seq<Byte>, k: nat)
    requires NextToken(s).Complete? && k < NextToken(s).size
    ensures NextToken(s[..k]) == Partial
  {
    if k > 0 {
      assert TokenSize(s[..k]) >= 2;
    }
  }

  /** Growing an incomplete token by one byte either leaves it incomplete or completes it with
      nothing left over. */
  lemma NextTokenGrows(s: seq<Byte>, b: Byte)
    requires NextToken(s).Partial?
    ensures NextToken(s + [b]).Complete? ==> NextToken(s + [b]).size == |s| + 1
  {
  }

  // ---------- values ----------

  predicate IsValue(t: Token) {
    t.Num? || t.Real? || t.Chars?
  }

  /** The value a value token stands for; none when its bytes are not UTF-8. */
  function ValueOf(t: Token): Option<NativeValue>
    requires IsValue(t)
  {
    match t
    case Num(n) => Some(Integer(n))
    case Real(bits, raw) => Some(if raw then RawFloat(bits) else Float(bits))
    case Chars(bytes) => if ValidUtf8(bytes) then Some(Str(bytes)) else None
  }

  function TokenOf(v: NativeValue): (t: Token)
    ensures IsValue(t)
  {
    match v
    case Integer(n) => Num(n)
    case Float(bits) => Real(bits, false)
    case RawFloat(bits) => Real(bits, true)
    case Str(text) => Chars(text)
  }

  predicate Encodable(v: NativeValue) {
    v.Str? ==> |v.text| <= 256
  }

  /** `value`'s unescaped wire token, in the shortest form the protocol has for it. */
  function EncodeValue(v: NativeValue): (r: Result<seq<Byte>>)
    ensures r.Ok? <==> Encodable(v)
    ensures r.Err? ==> r == Err(InvalidInput)
    ensures r.Ok? ==> 1 <= |r.value| <= 258
  {
    match v
    case Integer(n) =>
      if 0 <= n <= 0x3f then Ok([n as Byte])
      else if -0x8000 <= n < 0x8000 then
        Ok([0xd3] + Be16(if n < 0 then n + 0x1_0000 else n))
      else Ok([0xd4] + BeI32(n))
    case Float(bits) => Ok([0xd5] + Be32(bits))
    case RawFloat(bits) => Ok([0xd6] + Be32(bits))
    case Str(text) =>
      if text == [] then Ok([0xd0])
      else if |text| <= 64 then Ok([(0x7f + |text|) as Byte] + text)
      else if |text| <= 256 then Ok([0xd1, (|text| - 1) as Byte] + text)
      else Err(InvalidInput)
  }

  /** Every encoded value is one token that means that value, whatever follows it. */
  lemma ValueRoundTrip(v: NativeValue, rest: seq<Byte>)
    requires Encodable(v)
    ensures NextToken(EncodeValue(v).value + rest)
         == Complete(TokenOf(v), |EncodeValue(v).value|)
    ensures ValueOf(TokenOf(v)) == Some(v)
  {
    var e := EncodeValue(v).value;
    assert NextToken(e) == Complete(TokenOf(v), |e|) by {
      assert TokenSize(e) == |e|;
      assert e[..|e|] == e;
      match v
      case Integer(n) =>
        if 0 <= n <= 0x3f {
        } else if -0x8000 <= n < 0x8000 {
          var u: U16 := if n < 0 then n + 0x1_0000 else n;
          assert e[1..] == Be16(u);
          Be16RoundTrip(u);
        } else {
          assert e[1..] == BeI32(n);
          BeI32RoundTrip(n);
        }
      case Float(bits) =>
        assert e[1..] == Be32(bits);
        Be32RoundTrip(bits);
      case RawFloat(bits) =>
        assert e[1..] == Be32(bits);
        Be32RoundTrip(bits);
      case Str(text) =>
        if text == [] {
        } else if |text| <= 64 {
          assert e[1..] == text;
        } else {
          assert e[2..] == text;
        }
    }
    NextTokenStable(e, rest);
  }

  /** `0xd7 <id>`: the selector in front of every value. */
  function SelectorBytes(id: Int32): (r: seq<Byte>)
    ensures |r| == 5
  {
    [0xd7] + BeI32(id)
  }

  lemma SelectorRoundTrip(id: Int32, rest: seq<Byte>)
    ensures NextToken(SelectorBytes(id) + rest) == Complete(SelectId(id), 5)
  {
    var e := SelectorBytes(id);
    assert e[1..] == BeI32(id);
    BeI32RoundTrip(id);
    assert e[..5] == e;
    NextTokenStable(e, rest);
  }
}
