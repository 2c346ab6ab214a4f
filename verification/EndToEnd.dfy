/** From the server's list of responses to the client's reads. */
module EndToEnd {
  import opened Basics
  import opened Framing
  import opened Responses
  import opened Reader
  import opened ReadState
  import opened Console

  /** The wire of several batches sent one after the other on one session. */
  function Sent(batches: seq<seq<Response>>, maxWireBytes: nat): Result<seq<Byte>> {
    if batches == [] then Ok([])
    else
      var first :- EncodeBatch(batches[0], maxWireBytes);
      var rest :- Sent(batches[1..], maxWireBytes);
      Ok(first + rest)
  }

  function Joined(batches: seq<seq<Response>>): seq<Response> {
    if batches == [] then [] else batches[0] + Joined(batches[1..])
  }

  /** Framing and escaping are transparent: the channel decoder hands the client's parser the
      unescaped bytes of every response, whatever bytes they contain. */
  lemma {:induction false} WireIsPayload(batches: seq<seq<Response>>, maxWireBytes: nat)
    requires Sent(batches, maxWireBytes).Ok?
    ensures EncodeAll(Joined(batches))
            == Ok(ParameterBytes(OnChannel(1), Sent(batches, maxWireBytes).value))
    decreases |batches|
  {
    hide EncodeAll;
    if batches == [] {
      EncodeNothing();
    } else {
      var payload := EncodeAll(batches[0]).value;
      var first, rest := FrameBytes(payload), Sent(batches[1..], maxWireBytes).value;
      WireIsPayload(batches[1..], maxWireBytes);
      EncodeAllConcat(batches[0], Joined(batches[1..]));
      FrameThenRest(payload, rest);
    }
  }

  lemma FrameThenRest(payload: seq<Byte>, rest: seq<Byte>)
    ensures ParameterBytes(OnChannel(1), FrameBytes(payload) + rest)
            == payload + ParameterBytes(OnChannel(1), rest)
  {
    hide Escape, Deframe, DataOn;
    FrameRoundTrip(OnChannel(1), 1, payload);
    DeframeConcat(OnChannel(1), FrameBytes(payload), rest);
    NeverBroken(OnChannel(1), rest);
    var events := DataOn(1, payload);
    PayloadOfDataOn(1, payload);
    assert ([Selected(1)] + events)[1..] == events;
    PayloadOfConcat(1, [Selected(1)] + events, Deframe(OnChannel(1), rest).events);
  }

  // ---------- a run of reads ----------

  function Delivered(results: seq<Result<WingResponse>>): seq<WingResponse>
    decreases |results|
  {
    if results == [] then []
    else
      var last := |results| - 1;
      Delivered(results[..last]) + (if results[last].Ok? then [results[last].value] else [])
  }

  /** Successive reads, bounded or not, as long as each delivers or times out. */
  ghost predicate Run(fs: seq<Future>, results: seq<Result<WingResponse>>) {
    && |fs| == |results| + 1
    && forall i :: 0 <= i < |results| ==>
         ReadFrom(fs[i], fs[i + 1], results[i]) && (results[i].Ok? || results[i] == Err(Timeout))
  }

  /** Timeouts never matter: whatever the peer sends, a run of reads with any of them timing out
      delivers what uninterrupted reads would have delivered, and leaves the same still to come. */
  lemma {:induction false} TimeoutsNeverMatter(fs: seq<Future>, results: seq<Result<WingResponse>>)
    requires Run(fs, results)
    ensures Delivers(fs[0], Delivered(results), fs[|results|])
    ensures Upcoming(fs[0]) == (Delivered(results) + Upcoming(fs[|results|]).0, Upcoming(fs[|results|]).1)
    decreases |results|
  {
    hide NextResponse, MayReject, Upcoming, Delivers;
    if results == [] {
      DeliversNothing(fs[0]);
    } else {
      var last := |results| - 1;
      TimeoutsNeverMatter(fs[..last + 1], results[..last]);
      assert fs[..last + 1][last] == fs[last] && fs[..last + 1][0] == fs[0];
      assert ReadFrom(fs[last], fs[last + 1], results[last]);
      if results[last].Ok? {
        DeliversPush(fs[0], Delivered(results[..last]), fs[last]);
      } else {
        assert Delivered(results) == Delivered(results[..last]);
      }
    }
    DeliversUpcoming(fs[0], Delivered(results), fs[|results|]);
  }

  /** What a client that has read `k` responses of a list still has before it. */
  ghost predicate Awaits(f: Future, responses: seq<Response>, k: nat) {
    && k <= |responses| && f.pending == []
    && EncodeAll(responses[k..]) == Ok(f.stream)
  }

  lemma {:induction false} ViewsAt(responses: seq<Response>, k: nat)
    requires k < |responses|
    ensures ClientViews(responses)[k] == ClientView(responses[k])
    decreases k
  {
    if k > 0 {
      ViewsAt(responses[1..], k - 1);
    }
  }

  lemma RunLength(fs: seq<Future>, results: seq<Result<WingResponse>>)
    requires Run(fs, results)
    ensures |fs| == |results| + 1
  {
  }

  lemma RunPrefix(fs: seq<Future>, results: seq<Result<WingResponse>>)
    requires Run(fs, results) && results != []
    ensures var last := |results| - 1;
            && |fs| == |results| + 1
            && Run(fs[..last + 1], results[..last])
            && fs[..last + 1][0] == fs[0] && fs[..last + 1][last] == fs[last]
            && ReadFrom(fs[last], fs[last + 1], results[last])
            && (results[last].Ok? || results[last] == Err(Timeout))
  {
    hide ReadFrom;
  }

  lemma AwaitsAll(f: Future, responses: seq<Response>)
    requires f.pending == [] && EncodeAll(responses) == Ok(f.stream)
    ensures Awaits(f, responses, 0)
  {
    assert responses[0..] == responses;
  }

  /** The next read delivers the next response, and no guard can trip. */
  lemma AwaitsNext(f: Future, responses: seq<Response>, k: nat)
    requires AllCanonical(responses) && Awaits(f, responses, k)
    ensures k <= |responses|
    ensures !MayReject(f, MAX_NATIVE_RESPONSE_BYTES)
    ensures k == |responses| ==> NextResponse(f) == None
    ensures k < |responses| ==>
              && NextResponse(f).Some?
              && NextResponse(f).value.0 == ClientView(responses[k])
              && Awaits(NextResponse(f).value.1, responses, k + 1)
  {
    hide ParseDefinition;
    if k < |responses| {
      var r, later := responses[k], responses[k..][1..];
      assert r in responses && responses[k..][0] == r;
      assert later == responses[k + 1..];
      var first, rest := EncodeResponse(r).value, EncodeAll(later).value;
      EncodedParses(f.node, r, rest);
      EncodedSize(r);
      hide EncodeResponse, ParseResponse;
      assert (first + rest)[|first|..] == rest;
    }
  }

  /** Whatever batches the server accepts, however the wire is cut into chunks and however many
      reads time out in between, the reads deliver exactly the responses sent, in order; and
      after any number of reads no capacity guard or malformed data stands in the way. */
  lemma {:induction false} DeliversWhatWasSent(batches: seq<seq<Response>>, maxWireBytes: nat,
                                               fs: seq<Future>, results: seq<Result<WingResponse>>)
    requires Sent(batches, maxWireBytes).Ok? && AllCanonical(Joined(batches)) && Run(fs, results)
    requires fs[0] == Future([], 0, ParameterBytes(OnChannel(1), Sent(batches, maxWireBytes).value))
    ensures var responses, k := Joined(batches), |Delivered(results)|;
            && k <= |responses|
            && Delivered(results) == ClientViews(responses)[..k]
            && Awaits(fs[|results|], responses, k)
            && !MayReject(fs[|results|], MAX_NATIVE_RESPONSE_BYTES)
            && (NextResponse(fs[|results|]).Some? <==> k < |responses|)
    decreases |results|
  {
    hide Sent, ParameterBytes, MayReject, NextResponse, Awaits, ClientView, Run;
    var responses := Joined(batches);
    RunLength(fs, results);
    if results == [] {
      WireIsPayload(batches, maxWireBytes);
      AwaitsAll(fs[0], responses);
    } else {
      var last := |results| - 1;
      var k := |Delivered(results[..last])|;
      RunPrefix(fs, results);
      DeliversWhatWasSent(batches, maxWireBytes, fs[..last + 1], results[..last]);
      AwaitsNext(fs[last], responses, k);
      if results[last].Ok? {
        ViewsAt(responses, k);
      }
    }
    AwaitsNext(fs[|results|], responses, |Delivered(results)|);
  }

  lemma RunStarts(f: Future)
    ensures Run([f], []) && Delivered([]) == []
  {
  }

  lemma RunPush(fs: seq<Future>, results: seq<Result<WingResponse>>, next: Future, r: Result<WingResponse>)
    requires Run(fs, results) && |fs| == |results| + 1 && ReadFrom(fs[|results|], next, r)
    requires r.Ok? || r == Err(Timeout)
    ensures Run(fs + [next], results + [r])
    ensures Delivered(results + [r]) == Delivered(results) + (if r.Ok? then [r.value] else [])
  {
    hide ReadFrom;
    assert (results + [r])[..|results|] == results;
  }

  lemma EncodeNothing()
    ensures EncodeAll([]) == Ok([])
  {
  }

  lemma EndHasNoNext(f: Future)
    requires AtEnd(f)
    ensures NextResponse(f) == None
  {
  }

  /** Whatever ends a run, it is not malformed data if the peer sent encoded batches; and if it
      is the end of the stream, everything has been delivered. */
  lemma SessionCut(incoming: seq<Byte>, fs: seq<Future>, results: seq<Result<WingResponse>>, e: Error)
    requires Run(fs, results) && fs[0] == Future([], 0, ParameterBytes(OnChannel(1), incoming))
    requires e == InvalidData ==> MayReject(fs[|results|], MAX_NATIVE_RESPONSE_BYTES)
    requires e == ConnectionError ==> AtEnd(fs[|results|])
    ensures forall batches: seq<seq<Response>>, maxWireBytes: nat ::
              Sent(batches, maxWireBytes) == Ok(incoming) && AllCanonical(Joined(batches)) ==>
                && Delivered(results) <= ClientViews(Joined(batches)) && e != InvalidData
                && (e == ConnectionError ==> Delivered(results) == ClientViews(Joined(batches)))
  {
    forall batches: seq<seq<Response>>, maxWireBytes: nat |
      Sent(batches, maxWireBytes) == Ok(incoming) && AllCanonical(Joined(batches))
      ensures && Delivered(results) <= ClientViews(Joined(batches)) && e != InvalidData
              && (e == ConnectionError ==> Delivered(results) == ClientViews(Joined(batches)))
    {
      hide MayReject, Sent, ParameterBytes, Awaits, Run, NextResponse, Delivered, AtEnd;
      DeliversWhatWasSent(batches, maxWireBytes, fs, results);
      if e == ConnectionError {
        EndHasNoNext(fs[|results|]);
      }
    }
  }

  function Least(a: nat, b: nat): nat {
    if a <= b then a else b
  }

  /** What a client got from a peer that sent encoded batches: a prefix of what was sent, never
      found malformed, and all of it at the end of the stream. */
  ghost predicate Heard(incoming: seq<Byte>, delivered: seq<WingResponse>, failure: Option<Error>) {
    forall batches: seq<seq<Response>>, maxWireBytes: nat ::
      Sent(batches, maxWireBytes) == Ok(incoming) && AllCanonical(Joined(batches)) ==>
        && delivered <= ClientViews(Joined(batches))
        && failure != Some(InvalidData)
        && (failure == Some(ConnectionError) ==> delivered == ClientViews(Joined(batches)))
  }

  /** How a client that asked `asked` times was served: if nothing went wrong around it, every
      read delivered as long as there was something. */
  ghost predicate Served(incoming: seq<Byte>, asked: nat, delivered: seq<WingResponse>,
                         troubles: seq<Trouble>)
  {
    forall batches: seq<seq<Response>>, maxWireBytes: nat ::
      Sent(batches, maxWireBytes) == Ok(incoming) && AllCanonical(Joined(batches)) && troubles == [] ==>
        |delivered| == Least(asked, |Joined(batches)|)
  }

  /** What the surroundings must have recorded for a client to end as it did. */
  predicate Excused(asked: nat, delivered: seq<WingResponse>, failure: Option<Error>, troubles: seq<Trouble>) {
    && (failure == None ==> asked <= |delivered| + |troubles|)
    && (failure == Some(Io) ==> LineFault in troubles)
    && (failure == Some(Reconnecting) ==> ReconnectSeen in troubles)
    && failure != Some(Timeout) && failure != Some(InvalidInput)
  }

  lemma SessionEnds(incoming: seq<Byte>, fs: seq<Future>, results: seq<Result<WingResponse>>,
                    asked: nat, failure: Option<Error>, troubles: seq<Trouble>)
    requires Run(fs, results) && fs[0] == Future([], 0, ParameterBytes(OnChannel(1), incoming))
    requires failure == Some(InvalidData) ==> MayReject(fs[|results|], MAX_NATIVE_RESPONSE_BYTES)
    requires failure == Some(ConnectionError) ==> AtEnd(fs[|results|])
    requires Excused(asked, Delivered(results), failure, troubles) && |Delivered(results)| <= asked
    ensures Heard(incoming, Delivered(results), failure)
    ensures Served(incoming, asked, Delivered(results), troubles)
  {
    hide MayReject, Sent, ParameterBytes, Run, Delivered, AtEnd;
    SessionCut(incoming, fs, results, if failure.Some? then failure.value else Timeout);
  }

  /** Halfway: after `i` reads the console is at `now` and the surroundings recorded `troubles`. */
  ghost predicate SoFar(incoming: seq<Byte>, fs: seq<Future>, results: seq<Result<WingResponse>>, i: nat,
                        now: View, delivered: seq<WingResponse>)
  {
    && |fs| == |results| + 1 && Run(fs, results) && fs[|results|] == now.future
    && fs[0] == Future([], 0, ParameterBytes(OnChannel(1), incoming))
    && delivered == Delivered(results) && |delivered| <= i <= |delivered| + |now.troubles|
    && !now.tainted
  }

  lemma SoFarStarts(incoming: seq<Byte>, now: View)
    requires now.future == Future([], 0, ParameterBytes(OnChannel(1), incoming)) && !now.tainted
    ensures SoFar(incoming, [now.future], [], 0, now, [])
  {
  }

  lemma SoFarPush(incoming: seq<Byte>, fs: seq<Future>, results: seq<Result<WingResponse>>, i: nat,
                  before: View, now: View, delivered: seq<WingResponse>, r: Result<WingResponse>)
    requires SoFar(incoming, fs, results, i, before, delivered)
    requires ReadFrom(before.future, now.future, r) && Answers(before, now, r) && !now.tainted
    requires r.Ok? || r == Err(Timeout)
    ensures SoFar(incoming, fs + [now.future], results + [r], i + 1, now,
                  if r.Ok? then delivered + [r.value] else delivered)
  {
    hide ReadFrom, Run, Delivered, ParameterBytes, AtEnd, Deliverable;
    Recorded(before.troubles, now.troubles, ErrorOf(r));
    RunPush(fs, results, now.future, r);
  }

  lemma SoFarEnds(incoming: seq<Byte>, fs: seq<Future>, results: seq<Result<WingResponse>>, i: nat, asked: nat,
                  before: View, now: View, delivered: seq<WingResponse>, r: Result<WingResponse>)
    requires SoFar(incoming, fs, results, i, before, delivered) && i <= asked
    requires ReadFrom(before.future, now.future, r) && Answers(before, now, r)
    requires r.Err? && r.error != Timeout
    ensures Excused(asked, delivered, Some(r.error), now.troubles)
    ensures Heard(incoming, delivered, Some(r.error))
    ensures Served(incoming, asked, delivered, now.troubles)
  {
    hide ReadFrom, Run, Delivered, ParameterBytes, AtEnd, Deliverable, Heard, Served;
    Recorded(before.troubles, now.troubles, ErrorOf(r));
    ReadStops(before.future, now.future, r);
    SessionEnds(incoming, fs, results, asked, Some(r.error), now.troubles);
  }

  lemma SoFarDone(incoming: seq<Byte>, fs: seq<Future>, results: seq<Result<WingResponse>>, asked: nat,
                  now: View, delivered: seq<WingResponse>)
    requires SoFar(incoming, fs, results, asked, now, delivered)
    ensures Excused(asked, delivered, None, now.troubles)
    ensures Heard(incoming, delivered, None)
    ensures Served(incoming, asked, delivered, now.troubles)
  {
    hide Run, Delivered, ParameterBytes, Heard, Served;
    SessionEnds(incoming, fs, results, asked, None, now.troubles);
  }

  /** A client that reads on, with or without a time limit as `bounded` says, until something
      other than a timeout goes wrong. `troubles` is what its surroundings recorded meanwhile. */
  method ReadSession(incoming: seq<Byte>, quiets: nat, bounded: seq<bool>)
    returns (delivered: seq<WingResponse>, failure: Option<Error>, ghost troubles: seq<Trouble>)
    ensures Heard(incoming, delivered, failure)
    ensures Excused(|bounded|, delivered, failure, troubles)
    ensures Served(incoming, |bounded|, delivered, troubles)
  {
    hide ReadFrom, Heard, Served, Excused, ParameterBytes, Answers, SoFar;
    var console := new Console(incoming, quiets);
    ghost var fs, results := [console.Ahead()], [];
    delivered, failure, troubles := [], None, [];
    SoFarStarts(incoming, console.Look());
    for i := 0 to |bounded|
      invariant fresh(console) && fresh(console.outside) && fresh(console.channels) && fresh(console.rxBuf)
      invariant console.Idle() && !console.streamTainted
      invariant SoFar(incoming, fs, results, i, console.Look(), delivered)
    {
      ghost var before := console.Look();
      var r;
      if bounded[i] {
        r := console.ReadTimeout();
      } else {
        r := console.Read();
      }
      if r.Err? && r.error != Timeout {
        SoFarEnds(incoming, fs, results, i, |bounded|, before, console.Look(), delivered, r);
        return delivered, Some(r.error), console.outside.troubles;
      }
      SoFarPush(incoming, fs, results, i, before, console.Look(), delivered, r);
      fs, results := fs + [console.Ahead()], results + [r];
      if r.Ok? {
        delivered := delivered + [r.value];
      }
    }
    SoFarDone(incoming, fs, results, |bounded|, console.Look(), delivered);
    troubles := console.outside.troubles;
  }

  lemma Recorded(a: seq<Trouble>, b: seq<Trouble>, e: Option<Error>)
    requires Blames(a, b, e)
    ensures |a| <= |b| && (e == Some(Timeout) ==> |a| < |b|)
    ensures e == Some(Io) ==> LineFault in b
    ensures e == Some(Reconnecting) ==> ReconnectSeen in b
    ensures e != Some(InvalidInput)
  {
  }

  lemma ReadStops(f: Future, g: Future, r: Result<WingResponse>)
    requires ReadFrom(f, g, r)
    ensures r == Err(InvalidData) ==> MayReject(f, MAX_NATIVE_RESPONSE_BYTES)
  {
  }
}
