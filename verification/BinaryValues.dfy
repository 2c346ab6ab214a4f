/** Raw captures of node values: the second, looser parser of the response tokens, and the
    encoder of the form it reads. */
module BinaryValues {
  import opened Basics
  import opened Utf8
  import opened Framing
  import opened Tokens
  import opened Reader
  import opened ReadState

  /** A replacement of malformed UTF-8 that leaves well-formed text alone. */
  ghost predicate Faithful(lossy: seq<Byte> -> Text) {
    forall b | ValidUtf8(b) :: lossy(b) == b
  }

  function DatumOf(t: Token, lossy: seq<Byte> -> Text): Data
    requires IsValue(t)
  {
    match t
    case Num(n) => IntData(n)
    case Real(bits, _) => FloatData(bits)
    case Chars(bytes) => StringData(lossy(bytes))
  }

  type Pairs = seq<(Int32, Data)>

  function Prepend(front: Pairs, rest: Result<Pairs>): Result<Pairs> {
    if rest.Ok? then Ok(front + rest.value) else rest
  }

  /** The (id, value) pairs in `s`, when `cur` is the node selected so far. */
  function ParseValues(cur: Option<Int32>, s: seq<Byte>, lossy: seq<Byte> -> Text): Result<Pairs>
    decreases |s|
  {
    if s == [] || s[0] == 0xde then Ok([])
    else if s[0] > 0xde then Err(InvalidData)
    else
      match NextToken(s)
      case Partial => Err(InvalidData)
      case Complete(t, size) =>
        var rest := s[size..];
        if IsValue(t) then
          if cur.None? then Err(InvalidData)
          else Prepend([(cur.value, DatumOf(t, lossy))], ParseValues(cur, rest, lossy))
        else ParseValues(if t.SelectId? then Some(t.id) else cur, rest, lossy)
  }

  // ---------- the parser ----------

  /** `n` bytes at the cursor, and the cursor after them. */
  method Take(data: seq<Byte>, i: nat, n: nat) returns (r: Result<seq<Byte>>, next: nat)
    requires i <= |data|
    ensures r.Ok? <==> i + n <= |data|
    ensures r.Ok? ==> next == i + n && r.value == data[i..next]
    ensures r.Err? ==> r == Err(InvalidData) && next == i
  {
    if i + n > |data| {
      return Err(InvalidData), i;
    }
    return Ok(data[i..i + n]), i + n;
  }

  /** What one step of the parser adds, and the node it leaves selected. */
  datatype Advance = Advance(cur: Option<Int32>, found: Pairs)

  /** What the token `cmd` with `operand` contributes. */
  function Contribution(cmd: Byte, operand: seq<Byte>, cur: Option<Int32>, lossy: seq<Byte> -> Text): Result<Advance>
    requires TokenSize([cmd] + operand) == |operand| + 1
  {
    var t := Tokenize([cmd] + operand);
    if !IsValue(t) then Ok(Advance(if t.SelectId? then Some(t.id) else cur, []))
    else if cur.None? then Err(InvalidData)
    else Ok(Advance(cur, [(cur.value, DatumOf(t, lossy))]))
  }

  /** The bytes the token at `i` takes behind its opcode. */
  method TakeOperand(data: seq<Byte>, i: nat) returns (r: Result<seq<Byte>>, next: nat)
    requires i < |data| && data[i] < 0xde
    ensures r.Err? ==> r == Err(InvalidData) && NextToken(data[i..]).Partial?
    ensures r.Ok? ==>
              && TokenSize([data[i]] + r.value) == |r.value| + 1
              && NextToken(data[i..]) == Complete(Tokenize([data[i]] + r.value), |r.value| + 1)
              && next == i + |r.value| + 1
  {
    hide Tokenize;
    var cmd := data[i];
    ghost var s := data[i..];
    next := i + 1;
    var operand := [];
    if cmd <= 0x7f || cmd == 0xd0 || cmd == 0xd8 || 0xda <= cmd {
    } else {
      var n := if cmd <= 0xbf then cmd as int - 0x80 + 1
               else if cmd <= 0xcf then cmd as int - 0xc0 + 1
               else if cmd == 0xd1 || cmd == 0xd9 then 1
               else if cmd == 0xd2 || cmd == 0xd3 then 2
               else 4;
      var taken;
      taken, next := Take(data, next, n);
      if taken.Err? {
        return Err(InvalidData), i;
      }
      operand := taken.value;
      assert s[1..][..n] == operand;
      if cmd == 0xd1 {
        var text;
        text, next := Take(data, next, operand[0] as int + 1);
        if text.Err? {
          return Err(InvalidData), i;
        }
        operand := operand + text.value;
      }
    }
    assert s[..|operand| + 1] == [cmd] + operand;
    return Ok(operand), next;
  }

  /** The token at `i`, which is not an end or a definition. */
  method ParseStep(data: seq<Byte>, i: nat, cur: Option<Int32>, lossy: seq<Byte> -> Text)
    returns (r: Result<Advance>, next: nat)
    requires i < |data| && data[i] < 0xde
    ensures match NextToken(data[i..])
            case Partial => r == Err(InvalidData)
            case Complete(t, size) =>
              if IsValue(t) && cur.None? then r == Err(InvalidData)
              else
                && next == i + size
                && r == Ok(if IsValue(t) then Advance(cur, [(cur.value, DatumOf(t, lossy))])
                           else Advance(if t.SelectId? then Some(t.id) else cur, []))
  {
    hide NextToken, TokenSize, Tokenize;
    var operand;
    operand, next := TakeOperand(data, i);
    if operand.Err? {
      return Err(InvalidData), i;
    }
    r := ReadDatum(data[i], operand.value, cur, lossy);
  }

  method ReadDatum(cmd: Byte, operand: seq<Byte>, cur: Option<Int32>, lossy: seq<Byte> -> Text)
    returns (r: Result<Advance>)
    requires cmd < 0xde && TokenSize([cmd] + operand) == |operand| + 1
    ensures r == Contribution(cmd, operand, cur, lossy)
  {
    hide FromBe16, FromBe32, FromBeI32;
    ValueTokens([cmd] + operand, operand);
    if cmd <= 0x3f || 0x80 <= cmd <= 0xbf || (0xd0 <= cmd <= 0xd6 && cmd != 0xd2) {
      if cur.None? {
        return Err(InvalidData);
      }
      var datum := if cmd <= 0x3f then IntData(cmd as int)
                   else if cmd <= 0xd0 then StringData(lossy(operand))
                   else if cmd == 0xd1 then StringData(lossy(operand[1..]))
                   else if cmd == 0xd3 then IntData(Signed16(FromBe16(operand)))
                   else if cmd == 0xd4 then IntData(FromBeI32(operand))
                   else FloatData(FromBe32(operand));
      return Ok(Advance(cur, [(cur.value, datum)]));
    }
    if cmd == 0xd7 {
      return Ok(Advance(Some(FromBeI32(operand)), []));
    }
    return Ok(Advance(cur, []));
  }

  lemma ValueTokens(t: seq<Byte>, operand: seq<Byte>)
    requires |t| > 0 && |t| == TokenSize(t) && t[0] < 0xde && t == [t[0]] + operand
    ensures t[1..] == operand && (|t| >= 2 ==> t[2..] == operand[1..])
    ensures var cmd := t[0];
            && (IsValue(Tokenize(t)) <==>
                  cmd <= 0x3f || 0x80 <= cmd <= 0xbf || (0xd0 <= cmd <= 0xd6 && cmd != 0xd2))
            && (Tokenize(t).SelectId? <==> cmd == 0xd7)
  {
  }

  method ParseBinaryValues(data: seq<Byte>, lossy: seq<Byte> -> Text) returns (r: Result<Pairs>)
    ensures r == ParseValues(None, data, lossy)
  {
    hide NextToken, ParseValues;
    var out: Pairs := [];
    var i := 0;
    var cur: Option<Int32> := None;
    assert data[0..] == data;
    PrependNothing(ParseValues(cur, data, lossy));
    while i < |data|
      invariant i <= |data|
      invariant ParseValues(None, data, lossy) == Prepend(out, ParseValues(cur, data[i..], lossy))
      decreases |data| - i
    {
      ValuesFrom(cur, data[i..], lossy);
      if data[i] == 0xde {
        break;
      } else if data[i] > 0xde {
        return Err(InvalidData);
      }
      var step, next := ParseStep(data, i, cur, lossy);
      if step.Err? {
        return Err(InvalidData);
      }
      assert data[i..][next - i..] == data[next..];
      PrependTwice(out, step.value.found, ParseValues(step.value.cur, data[next..], lossy));
      PrependNothing(ParseValues(step.value.cur, data[next..], lossy));
      out := out + step.value.found;
      cur := step.value.cur;
      i := next;
    }
    assert i == |data| ==> data[i..] == [];
    ValuesFrom(cur, data[i..], lossy);
    assert out + [] == out;
    return Ok(out);
  }

  lemma ValuesFrom(cur: Option<Int32>, s: seq<Byte>, lossy: seq<Byte> -> Text)
    ensures s == [] || s[0] == 0xde ==> ParseValues(cur, s, lossy) == Ok([])
    ensures s != [] && s[0] > 0xde ==> ParseValues(cur, s, lossy) == Err(InvalidData)
    ensures s != [] && s[0] < 0xde ==>
              match NextToken(s)
              case Partial => ParseValues(cur, s, lossy) == Err(InvalidData)
              case Complete(t, size) =>
                ParseValues(cur, s, lossy) ==
                if !IsValue(t) then ParseValues(if t.SelectId? then Some(t.id) else cur, s[size..], lossy)
                else if cur.None? then Err(InvalidData)
                else Prepend([(cur.value, DatumOf(t, lossy))], ParseValues(cur, s[size..], lossy))
  {
    hide NextToken;
  }

  lemma PrependNothing(r: Result<Pairs>)
    ensures Prepend([], r) == r
  {
    assert r.Ok? ==> [] + r.value == r.value;
  }

  lemma PrependTwice(a: Pairs, b: Pairs, r: Result<Pairs>)
    ensures Prepend(a, Prepend(b, r)) == Prepend(a + b, r)
  {
    assert r.Ok? ==> a + (b + r.value) == (a + b) + r.value;
  }

  // ---------- two parsers, one meaning ----------

  predicate AllValues(rs: seq<WingResponse>) {
    forall r <- rs :: r.Value?
  }

  function PairsOf(rs: seq<WingResponse>): Pairs
    requires AllValues(rs)
  {
    if rs == [] then [] else [(rs[0].id, rs[0].data)] + PairsOf(rs[1..])
  }

  /** The first token of `s` that is not mere navigation selects a node, if any value follows. */
  predicate SelectorFirst(s: seq<Byte>)
    decreases |s|
  {
    if s == [] || s[0] >= 0xde then true
    else
      match NextToken(s)
      case Partial => true
      case Complete(t, size) => t.SelectId? || (!IsValue(t) && SelectorFirst(s[size..]))
  }

  /** Navigation in front does not change which responses a stream delivers. */
  lemma StepOver(node: Int32, s: seq<Byte>, rs: seq<WingResponse>, g: Future)
    requires Delivers(Future([], node, s), rs, g) && rs != []
    requires s != [] && s[0] < ESCAPE && NextToken(s).Complete?
    requires EffectOf(node, NextToken(s).token).Continue?
    ensures var next := EffectOf(node, NextToken(s).token).node;
            Delivers(Future([], next, s[NextToken(s).size..]), rs, g)
  {
    var size := NextToken(s).size;
    var p := ParseResponse(node, s);
    assert s[size..][p.size - size..] == s[p.size..];
  }

  /** Stepping through the capture with both parsers at once. */
  lemma {:induction false} ParsersAgree(cur: Option<Int32>, node: Int32, bytes: seq<Byte>,
                                        seen: seq<WingResponse>, last: Int32, lossy: seq<Byte> -> Text)
    requires Delivers(Future([], node, bytes), seen + [End], Future([], last, [])) && End !in seen
    requires cur == None || cur == Some(node)
    requires Faithful(lossy)
    ensures var r := ParseValues(cur, bytes, lossy);
            && (r.Ok? <==> AllValues(seen) && (cur.Some? || SelectorFirst(bytes)))
            && (r.Ok? ==> r == Ok(PairsOf(seen)))
    decreases |bytes|
  {
    var rs, g := seen + [End], Future([], last, []);
    hide NextToken, ParseDefinition;
    if bytes[0] < ESCAPE {
      var t, size := NextToken(bytes).token, NextToken(bytes).size;
      EndIsAToken(bytes);
      match EffectOf(node, t)
      case Continue(next) =>
        StepOver(node, bytes, rs, g);
        ParsersAgree(if t.SelectId? then Some(t.id) else cur, next, bytes[size..], seen, last, lossy);
      case Respond(response) =>
        assert rs[0] == response;
        if response == End {
          assert seen == [];
        } else {
          assert seen != [] && rs[1..] == seen[1..] + [End];
          assert seen[0] == Value(node, DatumOf(t, lossy));
          if cur.Some? {
            ParsersAgree(cur, node, bytes[size..], seen[1..], last, lossy);
          }
        }
      case Reject =>
        assert false;
    } else {
      OnlyDefinitions(node, bytes);
      assert rs[0].Def? && seen != [] && seen[0] == rs[0] && seen[0] in seen;
    }
  }

  lemma OnlyDefinitions(node: Int32, s: seq<Byte>)
    requires ParseResponse(node, s).Done? && s[0] >= ESCAPE
    ensures ParseResponse(node, s).response.Def?
  {
  }

  lemma EndIsAToken(s: seq<Byte>)
    requires s != [] && s[0] < ESCAPE
    ensures s[0] == 0xde ==> NextToken(s) == Complete(Other(0xde), 1)
    ensures NextToken(s).Complete? && s[0] != 0xde ==> NextToken(s).token != Other(0xde)
  {
  }

  /** Parsing a capture afterwards yields exactly the values that went by while it was taken,
      precisely when they were nothing but values and a selector came before the first. */
  lemma CaptureParses(f: Future, g: Future, seen: seq<WingResponse>, bytes: seq<Byte>,
                      lossy: seq<Byte> -> Text)
    requires CapturedFrom(f, g, seen, Ok(bytes)) && Faithful(lossy)
    ensures var r := ParseValues(None, bytes, lossy);
            && (r.Ok? <==> AllValues(seen) && SelectorFirst(bytes))
            && (r.Ok? ==> r == Ok(PairsOf(seen)))
    ensures ParameterBytes(OnChannel(1), Escape(bytes)) == bytes
  {
    hide CapturedFrom, Delivers, ParseValues, SelectorFirst;
    CaptureStandsAlone(f, g, seen, Ok(bytes));
    assert End !in seen by { EndNotSeen(f, g, seen, bytes); }
    var last :| Delivers(Future([], f.node, bytes), seen + [End], Future([], last, []));
    ParsersAgree(None, f.node, bytes, seen, last, lossy);
    EscapeRoundTrip(1, bytes);
    PayloadOfDataOn(1, bytes);
  }

  lemma EndNotSeen(f: Future, g: Future, seen: seq<WingResponse>, bytes: seq<Byte>)
    requires CapturedFrom(f, g, seen, Ok(bytes))
    ensures End !in seen
  {
  }

  // ---------- the encoder ----------

  function NativeOf(d: Data): NativeValue {
    match d
    case StringData(text) => Str(text)
    case FloatData(bits) => Float(bits)
    case IntData(n) => Integer(n)
  }

  /** The pairs whose value has a token: all but strings of more than 256 bytes. */
  function Representable(pairs: Pairs): Pairs {
    if pairs == [] then []
    else (if Encodable(NativeOf(pairs[0].1)) then [pairs[0]] else []) + Representable(pairs[1..])
  }

  function PairBytes(pair: (Int32, Data)): seq<Byte> {
    var token := EncodeValue(NativeOf(pair.1));
    if token.Ok? then SelectorBytes(pair.0) + token.value else []
  }

  function PairsBytes(pairs: Pairs): seq<Byte> {
    if pairs == [] then [] else PairBytes(pairs[0]) + PairsBytes(pairs[1..])
  }

  method EncodeBinaryValues(pairs: Pairs) returns (out: seq<Byte>)
    ensures out == PairsBytes(pairs) + [0xde]
  {
    hide PairBytes, PairsBytes;
    out := [];
    NothingEncoded(pairs);
    for i := 0 to |pairs|
      invariant out + PairsBytes(pairs[i..]) == PairsBytes(pairs)
    {
      ghost var before := out;
      out := AppendPair(out, pairs[i]);
      PairsBytesAt(before, pairs, i);
    }
    out := out + [0xde];
  }

  lemma NothingEncoded(pairs: Pairs)
    ensures [] + PairsBytes(pairs[0..]) == PairsBytes(pairs) && PairsBytes(pairs[|pairs|..]) == []
  {
    assert pairs[0..] == pairs;
  }

  lemma PairsBytesAt(out: seq<Byte>, pairs: Pairs, i: nat)
    requires i < |pairs|
    ensures out + PairsBytes(pairs[i..]) == (out + PairBytes(pairs[i])) + PairsBytes(pairs[i + 1..])
  {
    hide PairBytes;
    assert pairs[i..][1..] == pairs[i + 1..];
  }

  method AppendPair(out: seq<Byte>, pair: (Int32, Data)) returns (next: seq<Byte>)
    ensures next == out + PairBytes(pair)
  {
    hide EncodeValue;
    var token := EncodeValue(NativeOf(pair.1));
    if token.Err? {
      return out;
    }
    next := out + [0xd7];
    next := next + BeI32(pair.0);
    next := next + token.value;
  }

  /** Encoding and parsing again loses the over-long strings and nothing else. */
  lemma {:induction false} EncodedParsesBack(cur: Option<Int32>, pairs: Pairs, lossy: seq<Byte> -> Text)
    requires Faithful(lossy)
    ensures ParseValues(cur, PairsBytes(pairs) + [0xde], lossy) == Ok(Representable(pairs))
    decreases |pairs|
  {
    hide EncodeValue, SelectorBytes, ParseValues;
    if pairs == [] {
      ValuesFrom(cur, [] + [0xde], lossy);
    } else {
      var (id, datum) := pairs[0];
      var rest := PairsBytes(pairs[1..]) + [0xde];
      if Encodable(NativeOf(datum)) {
        var token := EncodeValue(NativeOf(datum)).value;
        FirstOf(SelectorBytes(id), token, PairsBytes(pairs[1..]), [0xde]);
        PairParses(cur, id, datum, rest, lossy);
        EncodedParsesBack(Some(id), pairs[1..], lossy);
      } else {
        assert PairsBytes(pairs) + [0xde] == rest;
        assert [] + Representable(pairs[1..]) == Representable(pairs[1..]);
        EncodedParsesBack(cur, pairs[1..], lossy);
      }
    }
  }

  lemma PairParses(cur: Option<Int32>, id: Int32, datum: Data, rest: seq<Byte>, lossy: seq<Byte> -> Text)
    requires Faithful(lossy) && Encodable(NativeOf(datum))
    ensures ParseValues(cur, SelectorBytes(id) + (EncodeValue(NativeOf(datum)).value + rest), lossy)
            == Prepend([(id, datum)], ParseValues(Some(id), rest, lossy))
  {
    hide NextToken, EncodeValue, SelectorBytes;
    var token := EncodeValue(NativeOf(datum)).value;
    var tail := token + rest;
    var all := SelectorBytes(id) + tail;
    SelectorRoundTrip(id, tail);
    ValueRoundTrip(NativeOf(datum), rest);
    SelectorLeads(id, tail);
    TokenLeads(NativeOf(datum), rest);
    assert DatumOf(TokenOf(NativeOf(datum)), lossy) == datum;
  }

  lemma FirstOf(a: seq<Byte>, b: seq<Byte>, c: seq<Byte>, d: seq<Byte>)
    ensures (a + b) + c + d == a + (b + (c + d))
  {
  }

  lemma SelectorLeads(id: Int32, tail: seq<Byte>)
    ensures (SelectorBytes(id) + tail)[0] == 0xd7 && (SelectorBytes(id) + tail)[5..] == tail
  {
  }

  lemma TokenLeads(v: NativeValue, rest: seq<Byte>)
    requires Encodable(v)
    ensures var token := EncodeValue(v).value;
            (token + rest)[0] < 0xde && (token + rest)[|token|..] == rest
  {
  }
}
