/** Server responses and their bounded, incremental encoder. */
module Responses {
  import opened Basics
  import opened Framing
  import opened Tokens
  import opened Definitions
  import DefinitionCodec

  const MAX_DEFINITION_BYTES: nat := 1024 * 1024

  datatype Response =
    | RequestEnd
    | Definition(def: NodeDef)
    | NodeData(id: Int32, value: NativeValue)
    | AuthoritativeEvent(id: Int32, value: NativeValue)

  /** The definition token: a 16-bit length, or 0 and a 32-bit length. */
  function DefinitionToken(body: seq<Byte>): seq<Byte>
    requires |body| <= MAX_DEFINITION_BYTES
  {
    [ESCAPE] + (if |body| <= 0xffff then Be16(|body|) else Be16(0) + Be32(|body|)) + body
  }

  /** One response's unescaped bytes. */
  function EncodeResponse(r: Response): (e: Result<seq<Byte>>)
    ensures e.Err? ==> e == Err(InvalidInput)
  {
    match r
    case RequestEnd => Ok([0xde])
    case NodeData(id, value) =>
      var token :- EncodeValue(value);
      Ok(SelectorBytes(id) + token)
    case AuthoritativeEvent(id, value) =>
      var token :- EncodeValue(value);
      Ok(SelectorBytes(id) + token)
    case Definition(def) =>
      var body :- DefBytes(def);
      if |body| > MAX_DEFINITION_BYTES then Err(InvalidInput) else Ok(DefinitionToken(body))
  }

  function EncodeAll(responses: seq<Response>): (e: Result<seq<Byte>>)
    ensures e.Err? ==> e == Err(InvalidInput)
  {
    if responses == [] then Ok([])
    else
      var first :- EncodeResponse(responses[0]);
      var rest :- EncodeAll(responses[1..]);
      Ok(first + rest)
  }

  /** The finished frame around a payload. */
  function FrameBytes(payload: seq<Byte>): seq<Byte> {
    SelectChannel(1) + Escape(payload)
  }

  function Saturate(n: nat): nat {
    if n <= USIZE_MAX then n else USIZE_MAX
  }

  /** The batch encodes, and its frame keeps to the ceiling. */
  function EncodeBatch(responses: seq<Response>, maxWireBytes: nat): Result<seq<Byte>> {
    var payload := EncodeAll(responses);
    if payload.Ok? && Saturate(|FrameBytes(payload.value)|) <= maxWireBytes
    then Ok(FrameBytes(payload.value))
    else Err(InvalidInput)
  }

  method EscapedLen(payload: seq<Byte>) returns (n: nat)
    ensures n == |Escape(payload)|
  {
    n := 0;
    assert payload[0..] == payload;
    for i := 0 to |payload|
      invariant n + |Escape(payload[i..])| == |Escape(payload)|
    {
      assert payload[i..][1..] == payload[i + 1..];
      n := n + (if payload[i] == ESCAPE then 2 else 1);
    }
  }

  class BoundedResponseEncoder {
    var payload: seq<Byte>
    var wireLen: nat
    const maxWireBytes: nat

    /** `wireLen` is the length of the frame `Finish` would return now. */
    ghost predicate Valid()
      reads this
    {
      && wireLen == Saturate(|FrameBytes(payload)|)
      && (payload != [] ==> wireLen <= maxWireBytes)
    }

    constructor (maxWireBytes: nat)
      ensures Valid() && payload == [] && this.maxWireBytes == maxWireBytes
    {
      payload := [];
      wireLen := 2;
      this.maxWireBytes := maxWireBytes;
    }

    /** Append one response; on error nothing has changed. */
    method Push(response: Response) returns (r: Result<()>)
      requires Valid()
      modifies this
      ensures Valid()
      ensures r.Err? ==> r == Err(InvalidInput) && payload == old(payload)
      ensures r.Ok? <==>
                && EncodeResponse(response).Ok?
                && Saturate(|FrameBytes(old(payload) + EncodeResponse(response).value)|) <= maxWireBytes
      ensures r.Ok? ==> payload == old(payload) + EncodeResponse(response).value
    {
      var encoded: seq<Byte> := [];
      match response {
      case RequestEnd =>
        encoded := [0xde];
      case NodeData(id, value) =>
        var token := EncodeValue(value);
        if token.Err? {
          return Err(InvalidInput);
        }
        encoded := SelectorBytes(id) + token.value;
      case AuthoritativeEvent(id, value) =>
        var token := EncodeValue(value);
        if token.Err? {
          return Err(InvalidInput);
        }
        encoded := SelectorBytes(id) + token.value;
      case Definition(def) =>
        var body := DefinitionCodec.ToWireBytes(def);
        if body.Err? || |body.value| > MAX_DEFINITION_BYTES {
          return Err(InvalidInput);
        }
        encoded := [ESCAPE];
        if |body.value| <= 0xffff {
          encoded := encoded + Be16(|body.value|);
        } else {
          encoded := encoded + Be16(0);
          encoded := encoded + Be32(|body.value|);
        }
        encoded := encoded + body.value;
        assert encoded == DefinitionToken(body.value);
      }
      assert EncodeResponse(response) == Ok(encoded);
      hide EncodeResponse, DefinitionToken, SelectorBytes;
      var len := EscapedLen(encoded);
      var nextWireLen := if wireLen + len <= USIZE_MAX then wireLen + len else USIZE_MAX;
      EscapeConcat(payload, encoded);
      assert nextWireLen == Saturate(|FrameBytes(payload + encoded)|);
      if nextWireLen > maxWireBytes {
        return Err(InvalidInput);
      }
      payload := payload + encoded;
      wireLen := nextWireLen;
      return Ok(());
    }

    method Finish() returns (r: Result<seq<Byte>>)
      requires Valid()
      ensures r == if wireLen <= maxWireBytes then Ok(FrameBytes(payload)) else Err(InvalidInput)
      ensures r.Ok? && wireLen < USIZE_MAX ==> |r.value| == wireLen
    {
      if wireLen > maxWireBytes {
        return Err(InvalidInput);
      }
      var wire := AppendEscaped([ESCAPE, CHANNEL_BASE + 1], payload);
      assert [ESCAPE, CHANNEL_BASE + 1] == SelectChannel(1);
      return Ok(wire);
    }
  }

  lemma {:induction false} EncodeAllConcat(a: seq<Response>, b: seq<Response>)
    ensures EncodeAll(a).Ok? && EncodeAll(b).Ok? ==>
              EncodeAll(a + b) == Ok(EncodeAll(a).value + EncodeAll(b).value)
    ensures EncodeAll(a + b).Ok? <==> EncodeAll(a).Ok? && EncodeAll(b).Ok?
    decreases |a|
  {
    if a == [] {
      assert a + b == b;
      if EncodeAll(b).Ok? {
        assert [] + EncodeAll(b).value == EncodeAll(b).value;
      }
    } else {
      assert (a + b)[1..] == a[1..] + b;
      EncodeAllConcat(a[1..], b);
      if EncodeResponse(a[0]).Ok? && EncodeAll(a[1..]).Ok? && EncodeAll(b).Ok? {
        var x, y, z := EncodeResponse(a[0]).value, EncodeAll(a[1..]).value, EncodeAll(b).value;
        assert x + (y + z) == (x + y) + z;
      }
    }
  }

  lemma EncodeOne(r: Response)
    ensures EncodeAll([r]) == EncodeResponse(r)
  {
    if EncodeResponse(r).Ok? {
      assert EncodeResponse(r).value + [] == EncodeResponse(r).value;
    }
  }

  /** A batch whose first responses make `payload` encodes only if the next one does and still
      fits. */
  lemma NextDecides(responses: seq<Response>, i: nat, payload: seq<Byte>, maxWireBytes: nat)
    requires i < |responses| && EncodeAll(responses[..i]) == Ok(payload)
    ensures var next := EncodeResponse(responses[i]);
            if next.Ok? && Saturate(|FrameBytes(payload + next.value)|) <= maxWireBytes
            then EncodeAll(responses[..i + 1]) == Ok(payload + next.value)
            else EncodeBatch(responses, maxWireBytes) == Err(InvalidInput)
  {
    var next, later := responses[i], responses[i + 1..];
    assert responses[..i + 1] == responses[..i] + [next];
    assert responses == responses[..i + 1] + later;
    EncodeAllConcat(responses[..i], [next]);
    EncodeAllConcat(responses[..i + 1], later);
    EncodeOne(next);
    hide EncodeAll, EncodeResponse;
    if EncodeAll(responses).Ok? {
      FrameGrows(payload + EncodeResponse(next).value, EncodeAll(later).value);
    }
  }

  /** Encode a whole batch, stopping as soon as it cannot fit. */
  method EncodeResponsesBounded(responses: seq<Response>, maxWireBytes: nat)
    returns (r: Result<seq<Byte>>)
    ensures r == EncodeBatch(responses, maxWireBytes)
  {
    hide EncodeResponse, FrameBytes;
    var encoder := new BoundedResponseEncoder(maxWireBytes);
    for i := 0 to |responses|
      invariant encoder.Valid() && fresh(encoder) && encoder.maxWireBytes == maxWireBytes
      invariant EncodeAll(responses[..i]) == Ok(encoder.payload)
    {
      NextDecides(responses, i, encoder.payload, maxWireBytes);
      var pushed := encoder.Push(responses[i]);
      if pushed.Err? {
        return Err(InvalidInput);
      }
    }
    assert responses[..|responses|] == responses;
    r := encoder.Finish();
  }

  lemma FrameGrows(a: seq<Byte>, b: seq<Byte>)
    ensures Saturate(|FrameBytes(a)|) <= Saturate(|FrameBytes(a + b)|)
  {
    EscapeConcat(a, b);
  }
}
