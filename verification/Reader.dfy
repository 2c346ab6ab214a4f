/** What the client reads from the stream of parameter bytes: one response at a time. */
module Reader {
  import opened Basics
  import opened Utf8
  import opened Framing
  import opened Tokens
  import opened Definitions
  import opened Responses

  datatype Data =
    | StringData(text: Text)
    | FloatData(bits: Bits32)
    | IntData(n: Int32)

  datatype WingResponse =
    | End
    | Def(def: NodeDef)
    | Value(id: Int32, data: Data)

  /** The front of a stream: nothing complete yet, something unacceptable, or one response,
      the node selected after it, and the bytes it took (navigation in front included). */
  datatype Parsed =
    | Need
    | Bad
    | Done(response: WingResponse, node: Int32, size: nat)

  function Skip(n: nat, p: Parsed): Parsed {
    if p.Done? then p.(size := n + p.size) else p
  }

  /** Both float tokens read as a float. */
  function DataOf(v: NativeValue): Data {
    match v
    case Integer(n) => IntData(n)
    case Float(bits) => FloatData(bits)
    case RawFloat(bits) => FloatData(bits)
    case Str(text) => StringData(text)
  }

  /** Bytes in front of a definition's body. */
  function DefinitionHeader(s: seq<Byte>): Option<(nat, nat)> {
    if |s| < 3 then None
    else if FromBe16(s[1..3]) != 0 then Some((3, FromBe16(s[1..3])))
    else if |s| < 7 then None
    else Some((7, FromBe32(s[3..7])))
  }

  function ParseDefinition(node: Int32, s: seq<Byte>): (p: Parsed)
    ensures p.Done? ==> 0 < p.size <= |s|
  {
    match DefinitionHeader(s)
    case None => Need
    case Some((header, len)) =>
      if len > MAX_DEFINITION_BYTES then Bad
      else if |s| < header + len then Need
      else
        var def := ParseDef(s[header..header + len]);
        if def.Err? then Bad else Done(Def(def.value), node, header + len)
  }

  /** A complete token that is not a definition: a response, or navigation to step over. */
  datatype Effect =
    | Respond(response: WingResponse)
    | Reject
    | Continue(node: Int32)

  function EffectOf(node: Int32, t: Token): Effect {
    if IsValue(t) then
      (match ValueOf(t)
       case None => Reject
       case Some(v) => Respond(Value(node, DataOf(v))))
    else if t == Other(0xde) then Respond(End)
    else Continue(if t.SelectId? then t.id else node)
  }

  function ParseResponse(node: Int32, s: seq<Byte>): (p: Parsed)
    ensures p.Done? ==> 0 < p.size <= |s|
    decreases |s|
  {
    if s == [] then Need
    else if s[0] == ESCAPE then ParseDefinition(node, s)
    else if s[0] > ESCAPE then Bad
    else
      match NextToken(s)
      case Partial => Need
      case Complete(t, size) =>
        match EffectOf(node, t)
        case Reject => Bad
        case Respond(response) => Done(response, node, size)
        case Continue(next) => Skip(size, ParseResponse(next, s[size..]))
  }

  // ---------- stability: bytes still to come change nothing that is already decided ----------

  lemma HeaderStable(s: seq<Byte>, rest: seq<Byte>)
    requires DefinitionHeader(s).Some?
    ensures DefinitionHeader(s + rest) == DefinitionHeader(s)
  {
    hide FromBe16, FromBe32;
    assert (s + rest)[1..3] == s[1..3];
    if |s| >= 7 {
      assert (s + rest)[3..7] == s[3..7];
    }
  }

  lemma DefinitionStable(node: Int32, s: seq<Byte>, rest: seq<Byte>)
    requires !ParseDefinition(node, s).Need?
    ensures ParseDefinition(node, s + rest) == ParseDefinition(node, s)
  {
    hide ParseDef, FromBe16, FromBe32, DefinitionHeader;
    HeaderStable(s, rest);
    var h := DefinitionHeader(s).value;
    if h.1 <= MAX_DEFINITION_BYTES {
      assert (s + rest)[h.0..h.0 + h.1] == s[h.0..h.0 + h.1];
    }
  }

  lemma {:induction false} ParseStable(node: Int32, s: seq<Byte>, rest: seq<Byte>)
    requires !ParseResponse(node, s).Need?
    ensures ParseResponse(node, s + rest) == ParseResponse(node, s)
    decreases |s|
  {
    hide ParseDefinition, NextToken;
    var all := s + rest;
    assert all[0] == s[0];
    if s[0] == ESCAPE {
      DefinitionStable(node, s, rest);
    } else if s[0] < ESCAPE {
      NextTokenStable(s, rest);
      var next := NextToken(s);
      var effect := EffectOf(node, next.token);
      if effect.Continue? {
        assert all[next.size..] == s[next.size..] + rest;
        ParseStable(effect.node, s[next.size..], rest);
      }
    }
  }

  /** A response depends on exactly the bytes it takes. */
  lemma {:induction false} ParseExact(node: Int32, s: seq<Byte>)
    requires ParseResponse(node, s).Done?
    ensures var p := ParseResponse(node, s); ParseResponse(node, s[..p.size]) == p
    decreases |s|
  {
    hide ParseDef, Tokenize;
    var p := ParseResponse(node, s);
    var own := s[..p.size];
    if s[0] == ESCAPE {
      DefinitionExact(node, s);
    } else {
      var next := NextToken(s);
      assert own[..next.size] == s[..next.size];
      assert TokenSize(own) == TokenSize(s);
      var effect := EffectOf(node, next.token);
      if effect.Continue? {
        ParseExact(effect.node, s[next.size..]);
        assert own[next.size..] == s[next.size..][..p.size - next.size];
      }
    }
  }

  lemma HeaderExact(s: seq<Byte>, n: nat)
    requires DefinitionHeader(s).Some? && DefinitionHeader(s).value.0 <= n <= |s|
    ensures DefinitionHeader(s[..n]) == DefinitionHeader(s)
  {
    hide FromBe16, FromBe32;
    var own := s[..n];
    assert own[1..3] == s[1..3];
    if |own| >= 7 {
      assert own[3..7] == s[3..7];
    }
  }

  lemma DefinitionExact(node: Int32, s: seq<Byte>)
    requires ParseDefinition(node, s).Done?
    ensures var p := ParseDefinition(node, s); ParseDefinition(node, s[..p.size]) == p
  {
    hide ParseDef, FromBe16, FromBe32, DefinitionHeader;
    var h := DefinitionHeader(s).value;
    var own := s[..h.0 + h.1];
    HeaderExact(s, h.0 + h.1);
    assert own[h.0..h.0 + h.1] == s[h.0..h.0 + h.1];
  }

  /** As long as a prefix still needs more, the response is longer than that prefix. */
  lemma NeedMeansLonger(node: Int32, s: seq<Byte>, k: nat)
    requires k <= |s| && ParseResponse(node, s[..k]).Need?
    ensures ParseResponse(node, s).Done? ==> ParseResponse(node, s).size > k
  {
    hide ParseResponse;
    var p := ParseResponse(node, s);
    if p.Done? && p.size <= k {
      ParseExact(node, s);
      assert s[..k] == s[..p.size] + s[p.size..k];
      ParseStable(node, s[..p.size], s[p.size..k]);
    }
  }

  // ---------- navigation ----------

  /** `s` is whole navigation tokens only; the node they leave selected. */
  function Navigate(node: Int32, s: seq<Byte>): Option<Int32>
    decreases |s|
  {
    if s == [] then Some(node)
    else if s[0] >= ESCAPE then None
    else
      match NextToken(s)
      case Partial => None
      case Complete(t, size) =>
        match EffectOf(node, t)
        case Continue(next) => Navigate(next, s[size..])
        case _ => None
  }

  lemma {:induction false} NavigateThenParse(node: Int32, s: seq<Byte>, rest: seq<Byte>)
    requires Navigate(node, s).Some?
    ensures ParseResponse(node, s + rest) == Skip(|s|, ParseResponse(Navigate(node, s).value, rest))
    decreases |s|
  {
    if s == [] {
      assert s + rest == rest;
    } else {
      NextTokenStable(s, rest);
      var next := NextToken(s);
      var effect := EffectOf(node, next.token);
      assert (s + rest)[next.size..] == s[next.size..] + rest;
      NavigateThenParse(effect.node, s[next.size..], rest);
    }
  }

  lemma {:induction false} NavigateConcat(node: Int32, a: seq<Byte>, b: seq<Byte>)
    requires Navigate(node, a).Some?
    ensures Navigate(node, a + b) == Navigate(Navigate(node, a).value, b)
    decreases |a|
  {
    if a == [] {
      assert a + b == b;
    } else {
      NextTokenStable(a, b);
      var next := NextToken(a);
      var effect := EffectOf(node, next.token);
      assert (a + b)[next.size..] == a[next.size..] + b;
      NavigateConcat(effect.node, a[next.size..], b);
    }
  }

  /** Bytes behind a navigation opcode: node indices, node names, click, step, tree moves and
      requests. None for other opcodes. */
  function NavigationOperand(op: Byte): Option<nat> {
    if 0x40 <= op <= 0x7f || op == 0xd8 || 0xda <= op <= 0xdd then Some(0)
    else if 0xc0 <= op <= 0xcf then Some(op as int - 0xc0 + 1)
    else if op == 0xd2 then Some(2)
    else if op == 0xd9 then Some(1)
    else None
  }

  /** Navigation in front of a response is stepped over and leaves the node as it is; a node
      selection moves it; anything above 0xdf is refused. */
  lemma NavigationIsSkipped(node: Int32, op: Byte, operand: seq<Byte>, rest: seq<Byte>)
    ensures NavigationOperand(op) == Some(|operand|) ==>
              ParseResponse(node, [op] + operand + rest) == Skip(1 + |operand|, ParseResponse(node, rest))
    ensures op == 0xd7 && |operand| == 4 ==>
              ParseResponse(node, [op] + operand + rest) == Skip(5, ParseResponse(FromBeI32(operand), rest))
    ensures op > 0xdf ==> ParseResponse(node, [op] + operand + rest).Bad?
  {
    hide ParseDefinition, FromBeI32;
    var t, s := [op] + operand, [op] + operand + rest;
    if NavigationOperand(op) == Some(|operand|) || (op == 0xd7 && |operand| == 4) {
      assert TokenSize(s) == |t| && s[..|t|] == t && s[|t|..] == rest;
      assert t[1..] == operand;
    }
  }

  // ---------- streams of responses ----------

  /** Everything still to be read: queued responses, the selected node and the stream. */
  datatype Future = Future(pending: seq<WingResponse>, node: Int32, stream: seq<Byte>)

  /** The responses a future holds, and what is left when no further one is complete. */
  function Upcoming(f: Future): (seq<WingResponse>, Future)
    decreases |f.stream|
  {
    match ParseResponse(f.node, f.stream)
    case Done(response, node, size) =>
      var later := Upcoming(Future([], node, f.stream[size..]));
      (f.pending + [response] + later.0, later.1)
    case _ => (f.pending, Future([], f.node, f.stream))
  }

  /** One read: a queued response first, else the next one of the stream. */
  function NextResponse(f: Future): Option<(WingResponse, Future)> {
    if f.pending != [] then Some((f.pending[0], f.(pending := f.pending[1..])))
    else
      match ParseResponse(f.node, f.stream)
      case Done(response, node, size) => Some((response, Future([], node, f.stream[size..])))
      case _ => None
  }

  lemma NextIsUpcoming(f: Future)
    requires NextResponse(f).Some?
    ensures var (response, later) := NextResponse(f).value;
            Upcoming(f) == ([response] + Upcoming(later).0, Upcoming(later).1)
  {
    var (response, later) := NextResponse(f).value;
    if f.pending != [] {
      assert f.pending == [response] + later.pending;
      match ParseResponse(f.node, f.stream)
      case Done(r, node, size) =>
        var rest := Upcoming(Future([], node, f.stream[size..])).0;
        assert f.pending + [r] + rest == [response] + (later.pending + [r] + rest);
      case _ =>
    } else {
      assert [] + [response] == [response];
    }
  }

  /** Reading `rs`, one after the other, turns the future `f` into `g`. */
  ghost predicate Delivers(f: Future, rs: seq<WingResponse>, g: Future)
    decreases |rs|
  {
    if rs == [] then f == g
    else
      && NextResponse(f).Some?
      && NextResponse(f).value.0 == rs[0]
      && Delivers(NextResponse(f).value.1, rs[1..], g)
  }

  lemma {:induction false} DeliversPush(f: Future, rs: seq<WingResponse>, g: Future)
    requires Delivers(f, rs, g) && NextResponse(g).Some?
    ensures Delivers(f, rs + [NextResponse(g).value.0], NextResponse(g).value.1)
    decreases |rs|
  {
    var r := NextResponse(g).value.0;
    if rs == [] {
      assert [r][1..] == [];
    } else {
      assert (rs + [r])[1..] == rs[1..] + [r];
      DeliversPush(NextResponse(f).value.1, rs[1..], g);
    }
  }

  /** What has been delivered and what is still upcoming add up to what was upcoming. */
  lemma {:induction false} DeliversUpcoming(f: Future, rs: seq<WingResponse>, g: Future)
    requires Delivers(f, rs, g)
    ensures Upcoming(f) == (rs + Upcoming(g).0, Upcoming(g).1)
    decreases |rs|
  {
    hide ParseResponse, Upcoming, NextResponse;
    if rs == [] {
      assert rs + Upcoming(g).0 == Upcoming(g).0;
    } else {
      NextIsUpcoming(f);
      var next := NextResponse(f).value.1;
      DeliversUpcoming(next, rs[1..], g);
      assert [rs[0]] + (rs[1..] + Upcoming(g).0) == rs + Upcoming(g).0;
    }
  }

  /** Responses put back in front of the queue are upcoming again, in order. */
  lemma RequeueIsUpcoming(rs: seq<WingResponse>, f: Future)
    ensures Upcoming(f.(pending := rs + f.pending)) == (rs + Upcoming(f).0, Upcoming(f).1)
  {
    hide ParseResponse;
    match ParseResponse(f.node, f.stream)
    case Done(r, node, size) =>
      var later := Upcoming(Future([], node, f.stream[size..])).0;
      assert (rs + f.pending) + [r] + later == rs + (f.pending + [r] + later);
    case _ =>
  }

  /** When a read may report malformed data: the stream holds something unacceptable, or a
      response longer than the reader has room for. */
  predicate MayReject(f: Future, room: nat) {
    match ParseResponse(f.node, f.stream)
    case Bad => true
    case Done(_, _, size) => size > room
    case Need => |f.stream| >= room
  }

  // ---------- the server's bytes ----------

  /** How the client sees a server response. */
  function ClientView(r: Response): WingResponse {
    match r
    case RequestEnd => End
    case NodeData(id, value) => Value(id, DataOf(value))
    case AuthoritativeEvent(id, value) => Value(id, DataOf(value))
    case Definition(def) =>
      Def(if DefBytes(def).Ok? then def.(raw := DefBytes(def).value) else def)
  }

  function SelectedAfter(node: Int32, r: Response): Int32 {
    if r.NodeData? || r.AuthoritativeEvent? then r.id else node
  }

  predicate CanonicalResponse(r: Response) {
    r.Definition? ==> Canonical(r.def)
  }

  lemma ValueResponseParses(node: Int32, id: Int32, value: NativeValue, rest: seq<Byte>)
    requires Encodable(value)
    ensures var bytes := SelectorBytes(id) + EncodeValue(value).value;
            ParseResponse(node, bytes + rest) == Done(Value(id, DataOf(value)), id, |bytes|)
  {
    var token := EncodeValue(value).value;
    SelectorRoundTrip(id, token + rest);
    ValueRoundTrip(value, rest);
    var all := SelectorBytes(id) + (token + rest);
    assert SelectorBytes(id) + token + rest == all;
    assert all[0] == 0xd7 && all[5..] == token + rest;
    assert token[0] < ESCAPE;
    hide EncodeValue, SelectorBytes, Tokenize;
    assert ParseResponse(id, token + rest) == Done(Value(id, DataOf(value)), id, |token|);
  }

  /** The length a definition token carries, in either form, frames exactly its body. */
  lemma DefinitionTokenFrames(body: seq<Byte>, rest: seq<Byte>)
    requires 0 < |body| <= MAX_DEFINITION_BYTES
    ensures var all := DefinitionToken(body) + rest;
            && DefinitionHeader(all).Some?
            && var h := DefinitionHeader(all).value;
               h.1 == |body| && h.0 + h.1 == |DefinitionToken(body)|
               && all[h.0..h.0 + h.1] == body
  {
    var all := DefinitionToken(body) + rest;
    if |body| <= 0xffff {
      Be16RoundTrip(|body|);
      hide FromBe16, Be16;
      assert all[1..3] == Be16(|body|) && all[3..3 + |body|] == body;
    } else {
      Be16RoundTrip(0);
      Be32RoundTrip(|body|);
      hide FromBe16, Be16, FromBe32, Be32;
      assert all[1..3] == Be16(0) && all[3..7] == Be32(|body|);
      assert all[7..7 + |body|] == body;
    }
  }

  lemma DefinitionParses(node: Int32, def: NodeDef, rest: seq<Byte>)
    requires Canonical(def) && EncodeResponse(Definition(def)).Ok?
    ensures var bytes := EncodeResponse(Definition(def)).value;
            ParseResponse(node, bytes + rest) == Done(ClientView(Definition(def)), node, |bytes|)
  {
    hide Canonical, DefBytes, ParseDef, ReadDef;
    DefRoundTrip(def);
    var body := DefBytes(def).value;
    DefinitionTokenFrames(body, rest);
    var all := DefinitionToken(body) + rest;
    assert all[0] == ESCAPE && |all| >= |DefinitionToken(body)|;
    hide DefinitionHeader, DefinitionToken;
    assert ParseDefinition(node, all) == Done(Def(def.(raw := body)), node, |DefinitionToken(body)|);
  }

  /** Each encoded response is read back as itself, whatever follows it. */
  lemma EncodedParses(node: Int32, r: Response, rest: seq<Byte>)
    requires CanonicalResponse(r) && EncodeResponse(r).Ok?
    ensures ParseResponse(node, EncodeResponse(r).value + rest)
         == Done(ClientView(r), SelectedAfter(node, r), |EncodeResponse(r).value|)
  {
    match r
    case RequestEnd =>
      var all := [0xde] + rest;
      assert all[0] == 0xde && all[..1] == [0xde];
    case NodeData(id, value) => ValueResponseParses(node, id, value, rest);
    case AuthoritativeEvent(id, value) => ValueResponseParses(node, id, value, rest);
    case Definition(def) => DefinitionParses(node, def, rest);
  }

  function ClientViews(responses: seq<Response>): (views: seq<WingResponse>)
    ensures |views| == |responses|
  {
    if responses == [] then [] else [ClientView(responses[0])] + ClientViews(responses[1..])
  }

  predicate AllCanonical(responses: seq<Response>) {
    forall r :: r in responses ==> CanonicalResponse(r)
  }

  /** A whole batch is read back as the batch, with nothing left over. */
  lemma {:induction false} BatchIsUpcoming(node: Int32, responses: seq<Response>)
    requires AllCanonical(responses) && EncodeAll(responses).Ok?
    ensures var all := Upcoming(Future([], node, EncodeAll(responses).value));
            all.0 == ClientViews(responses) && all.1.stream == []
    decreases |responses|
  {
    if responses == [] {
    } else {
      var r, rest := responses[0], EncodeAll(responses[1..]).value;
      assert r in responses && forall x :: x in responses[1..] ==> x in responses;
      EncodedParses(node, r, rest);
      BatchIsUpcoming(SelectedAfter(node, r), responses[1..]);
      UpcomingStep(node, EncodeResponse(r).value, rest, ClientView(r), SelectedAfter(node, r));
    }
  }

  lemma UpcomingStep(node: Int32, first: seq<Byte>, rest: seq<Byte>, r: WingResponse, next: Int32)
    requires ParseResponse(node, first + rest) == Done(r, next, |first|)
    ensures var later := Upcoming(Future([], next, rest));
            Upcoming(Future([], node, first + rest)) == ([r] + later.0, later.1)
  {
    hide ParseResponse;
    var later := Upcoming(Future([], next, rest));
    assert (first + rest)[|first|..] == rest;
    assert [] + [r] + later.0 == [r] + later.0;
  }

  /** No response of an encoded batch is longer than a definition of the largest size. */
  lemma EncodedSize(r: Response)
    requires EncodeResponse(r).Ok?
    ensures |EncodeResponse(r).value| <= MAX_DEFINITION_BYTES + 7
  {
  }
}
