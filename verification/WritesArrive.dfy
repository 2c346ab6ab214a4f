/** From the client's bulk writes to the server's requests. */
module WritesArrive {
  import opened Basics
  import opened Framing
  import opened Tokens
  import opened Requests
  import opened RequestLaws
  import opened ClientMessages
  import opened ClientServer
  import opened BinaryValues
  import opened BulkWrite
  import Reader
  import Restore

  /** What the server should be asked for: one set per item that can be encoded. */
  function SetRequests(items: seq<Write>): seq<Request> {
    if items == [] then []
    else (if Fits(items[0]) then [Set(items[0].id, NativeOf(items[0].value))] else []) + SetRequests(items[1..])
  }

  lemma {:induction false} ExpectedSets(items: seq<Write>)
    ensures AllExpected(Sets(items)) == SetRequests(items)
    ensures forall m <- Sets(items) :: m.SetNode?
  {
    if items != [] {
      var rest := Sets(items[1..]);
      ExpectedSets(items[1..]);
      if Fits(items[0]) {
        assert Sets(items) == [SetMessage(items[0])] + rest && Sets(items)[1..] == rest;
      } else {
        assert [] + SetRequests(items[1..]) == SetRequests(items[1..]);
      }
    }
  }

  /** The server, whatever fragments the bytes arrive in. */
  ghost predicate Receives(c: Core, bytes: seq<Byte>, requests: seq<Request>)
    requires Idle(c)
  {
    forall fragments: seq<seq<Byte>> :: Flatten(fragments) == bytes ==>
      var p := PushPieces(DEFAULT_LIMITS, OnChannel(1), c, fragments);
      && (p.Accepted? <==> EachPushFits(DEFAULT_LIMITS, OnChannel(1), c, fragments))
      && (p.Accepted? ==> p.requests == requests && p.frame == OnChannel(1) && Idle(p.core))
  }

  lemma SetsArrive(c: Core, items: seq<Write>)
    requires Idle(c)
    ensures Receives(c, StreamBytes(Sets(items)), SetRequests(items))
  {
    var messages, bytes, requests := Sets(items), StreamBytes(Sets(items)), SetRequests(items);
    ExpectedSets(items);
    forall fragments: seq<seq<Byte>> | Flatten(fragments) == bytes
      ensures var p := PushPieces(DEFAULT_LIMITS, OnChannel(1), c, fragments);
              && (p.Accepted? <==> EachPushFits(DEFAULT_LIMITS, OnChannel(1), c, fragments))
              && (p.Accepted? ==> p.requests == requests && p.frame == OnChannel(1) && Idle(p.core))
    {
      ClientToServer(c, messages, fragments);
    }
  }

  /** A bulk write in which every item that can be encoded succeeds reaches the server as
      exactly one set request per such item, in order. */
  lemma BulkArrives(items: seq<Write>, accepted: seq<bool>, batches: seq<Batch>, results: seq<Result<()>>, c: Core)
    requires Wrote(items, accepted, batches, results) && Idle(c)
    requires forall j :: 0 <= j < |items| && Fits(items[j]) ==> results[j].Ok?
    ensures Receives(c, SentBy(batches), SetRequests(items))
  {
    hide Receives, Sets, SetRequests, StreamBytes, SentBy;
    BulkIsOneAtATime(items, accepted, batches, results);
    SetsArrive(c, items);
  }

  /** So does a restore in which every attempted write succeeds: the server sees the attempted
      entries in the applied order. */
  lemma RestoreArrives(o: seq<Restore.DumpEntry>, calls: seq<Restore.Call>, fate: seq<Restore.Fate>, c: Core)
    requires Restore.CallsOk(o, calls, fate) && Idle(c)
    requires forall k :: 0 <= k < |calls| ==> Restore.AllWell(o, calls[k])
    ensures forall p :: 0 <= p < |Restore.AllSlots(calls)| ==> Restore.AllSlots(calls)[p] < |o|
    ensures Receives(c, Restore.SentByCalls(calls), SetRequests(Restore.WritesOf(o, Restore.AllSlots(calls))))
  {
    hide Receives, Sets, SetRequests, StreamBytes, Restore.SentByCalls;
    Restore.RestoreIsOneAtATime(o, calls, fate);
    SetsArrive(c, Restore.WritesOf(o, Restore.AllSlots(calls)));
  }

  /** A restore during which nothing bad was recorded brings the server one set request for each
      entry that is up for writing and can be encoded, in the applied order. */
  lemma HealthyRestoreArrives(o: seq<Restore.DumpEntry>, readOnly: string -> bool, calls: seq<Restore.Call>,
                              fate: seq<Restore.Fate>, results: Restore.Results, c: Core)
    requires Restore.Restored(o, readOnly, calls, fate, results) && Idle(c)
    requires Clean(Restore.NotedCalls(NO_RECORDS, calls))
    ensures Receives(c, Restore.SentByCalls(calls), SetRequests(Restore.WritesUp(o, readOnly, |o|)))
  {
    hide *;
    Restore.RestoreHealthy(o, readOnly, calls, fate, results);
    SetsArrive(c, Restore.WritesUp(o, readOnly, |o|));
  }

  // ---------- raw captures written back ----------

  function PairRequests(pairs: Pairs): seq<Request> {
    if pairs == [] then []
    else (if Encodable(NativeOf(pairs[0].1)) then [Set(pairs[0].0, NativeOf(pairs[0].1))] else [])
         + PairRequests(pairs[1..])
  }

  /** Escaping a whole pair is the set message of that pair. */
  lemma PairIsSetMessage(pair: (Int32, Reader.Data))
    requires Encodable(NativeOf(pair.1))
    ensures Escape(PairBytes(pair)) == MessageBytes(SetNode(pair.0, NativeOf(pair.1)))
  {
    var token := EncodeValue(NativeOf(pair.1)).value;
    hide EncodeValue, BeI32;
    EscapePlainSelector();
    EscapeConcat(SelectorBytes(pair.0), token);
    EscapeConcat([0xd7], BeI32(pair.0));
  }

  lemma EscapePlainSelector()
    ensures Escape([0xd7]) == [0xd7] && Escape([0xde]) == [0xde] && Escape([]) == []
  {
    assert [0xd7 as Byte][1..] == [] && [0xde as Byte][1..] == [];
  }

  /** The bytes and the requests of the first pair, and of the rest. */
  lemma FirstPair(pairs: Pairs)
    requires pairs != []
    ensures Escape(PairsBytes(pairs) + [0xde]) ==
            Escape(PairBytes(pairs[0])) + Escape(PairsBytes(pairs[1..]) + [0xde])
    ensures PairRequests(pairs) + [Unknown(1, 0xde)] ==
            (if Encodable(NativeOf(pairs[0].1)) then [Set(pairs[0].0, NativeOf(pairs[0].1))] else [])
            + (PairRequests(pairs[1..]) + [Unknown(1, 0xde)])
  {
    hide Escape, PairBytes;
    var first, rest := PairBytes(pairs[0]), PairsBytes(pairs[1..]) + [0xde];
    assert PairsBytes(pairs) + [0xde] == first + rest;
    EscapeConcat(first, rest);
  }

  lemma PairYields(c: Core, pair: (Int32, Reader.Data)) returns (mid: Core)
    requires Idle(c)
    ensures Yields(DEFAULT_LIMITS, c, Escape(PairBytes(pair)),
                   if Encodable(NativeOf(pair.1)) then [Set(pair.0, NativeOf(pair.1))] else [], mid)
  {
    if Encodable(NativeOf(pair.1)) {
      PairIsSetMessage(pair);
      SetYields(DEFAULT_LIMITS, c, pair.0, NativeOf(pair.1));
      mid := c.(selectedId := Some(pair.0));
    } else {
      EscapePlainSelector();
      mid := c;
    }
  }

  lemma {:induction false} PairsYield(c: Core, pairs: Pairs) returns (after: Core)
    requires Idle(c)
    ensures Yields(DEFAULT_LIMITS, c, Escape(PairsBytes(pairs) + [0xde]),
                   PairRequests(pairs) + [Unknown(1, 0xde)], after)
    decreases |pairs|
  {
    hide Escape, PairBytes, Deframe, Run;
    if pairs == [] {
      EscapePlainSelector();
      assert [] + [0xde] == [0xde as Byte] && [] + [Unknown(1, 0xde)] == [Unknown(1, 0xde)];
      EndYields(c);
      after := c;
    } else {
      FirstPair(pairs);
      var mid := PairYields(c, pairs[0]);
      after := PairsYield(mid, pairs[1..]);
      YieldsConcat(DEFAULT_LIMITS, c, Escape(PairBytes(pairs[0])),
                   if Encodable(NativeOf(pairs[0].1)) then [Set(pairs[0].0, NativeOf(pairs[0].1))] else [], mid,
                   Escape(PairsBytes(pairs[1..]) + [0xde]), PairRequests(pairs[1..]) + [Unknown(1, 0xde)], after);
    }
  }

  /** Values encoded for the binary form and written back in one go reach the server, in any
      fragments, as one set request per value with a token, in order; the end token is passed
      over as unknown. A fragment is refused only if it alone exceeds the batch limit. */
  lemma PairsArrive(c: Core, pairs: Pairs)
    requires Idle(c)
    ensures Receives(c, Escape(PairsBytes(pairs) + [0xde]), PairRequests(pairs) + [Unknown(1, 0xde)])
  {
    hide Receives, Yields, Escape, PairsBytes, PairRequests;
    var after := PairsYield(c, pairs);
    YieldsReceived(c, Escape(PairsBytes(pairs) + [0xde]), PairRequests(pairs) + [Unknown(1, 0xde)], after);
  }

  /** What decodes in one go arrives whatever fragments it is cut into. */
  lemma YieldsReceived(c: Core, bytes: seq<Byte>, requests: seq<Request>, after: Core)
    requires Idle(c) && Yields(DEFAULT_LIMITS, c, bytes, requests, after)
    ensures Receives(c, bytes, requests)
  {
    forall fragments: seq<seq<Byte>> | Flatten(fragments) == bytes
      ensures var p := PushPieces(DEFAULT_LIMITS, OnChannel(1), c, fragments);
              && (p.Accepted? <==> EachPushFits(DEFAULT_LIMITS, OnChannel(1), c, fragments))
              && (p.Accepted? ==> p.requests == requests && p.frame == OnChannel(1) && Idle(p.core))
    {
      PiecesExact(DEFAULT_LIMITS, OnChannel(1), c, fragments);
    }
  }

  lemma EndYields(c: Core)
    requires Idle(c)
    ensures Yields(DEFAULT_LIMITS, c, [0xde], [Unknown(1, 0xde)], c)
  {
    EscapePlainSelector();
    assert [0xde as Byte][..1] == [0xde];
    assert NextToken([0xde]) == Complete(Other(0xde), 1);
    TokenYields(DEFAULT_LIMITS, c, [0xde]);
  }
}
