/** Bulk writes: set messages coalesced into batches, with one result per item. */
module BulkWrite {
  import opened Basics
  import opened Framing
  import opened Tokens
  import opened Reader
  import opened ClientMessages
  import opened BinaryValues

  const WRITE_BATCH_BYTES: nat := 8 * 1024

  /** No set message is longer: a prefix, four id bytes and a 258-byte token, all escaped. */
  const MAX_SET_MESSAGE: nat := 1 + 8 + 2 * 258

  datatype Write = Write(id: Int32, value: Data)

  function SetMessage(w: Write): Message {
    SetNode(w.id, NativeOf(w.value))
  }

  predicate Fits(w: Write) {
    Encodable(NativeOf(w.value))
  }

  /** The messages of the accepted items from `lo` up to `hi`. */
  function Messages(items: seq<Write>, accepted: seq<bool>, lo: nat, hi: nat): seq<Byte>
    requires hi <= |accepted| <= |items|
    requires forall j :: 0 <= j < |accepted| && accepted[j] ==> Fits(items[j])
    decreases hi
  {
    if hi <= lo then []
    else
      Messages(items, accepted, lo, hi - 1)
      + (if accepted[hi - 1] then MessageBytes(SetMessage(items[hi - 1])) else [])
  }

  /** What a flush saw under the writer lock: a tainted stream, a session other than the one it
      was started under. */
  datatype Fence = Fence(tainted: bool, replaced: bool) {
    predicate Open() {
      !tainted && !replaced
    }
  }

  /** One flush: the items it covers, what it tried to write, how that went, what reached the
      transport, what it saw first, and whether the write, if any, went through. */
  datatype Batch = Batch(
    lo: nat,
    hi: nat,
    bytes: seq<Byte>,
    outcome: Result<()>,
    sent: seq<Byte>,
    fence: Fence,
    written: bool)

  /** The outcome is what the flush saw and what became of its write, and nothing else. */
  predicate Flushed(b: Batch) {
    && b.outcome == (if b.fence.tainted then Err(ConnectionError)
                     else if b.fence.replaced then Err(Reconnecting)
                     else if b.written then Ok(())
                     else Err(Io))
    && (b.fence.Open() && b.written ==> b.sent == b.bytes)
    && (!b.fence.Open() ==> b.sent == [])
    && b.sent <= b.bytes
  }

  /** What the shared writer has recorded: every look whether the stream is usable, every fence
      seen by a flush, and whether each write went through. */
  datatype Records = Records(looks: seq<bool>, fences: seq<Fence>, writes: seq<bool>)

  function FencesOf(batches: seq<Batch>): seq<Fence> {
    if batches == [] then [] else FencesOf(batches[..|batches| - 1]) + [batches[|batches| - 1].fence]
  }

  function WrittenOf(batches: seq<Batch>): seq<bool> {
    if batches == [] then []
    else
      var last := batches[|batches| - 1];
      WrittenOf(batches[..|batches| - 1]) + (if last.fence.Open() then [last.written] else [])
  }

  /** The records after a bulk write with these looks and batches. */
  function Noted(h: Records, looks: seq<bool>, batches: seq<Batch>): Records {
    Records(h.looks + looks, h.fences + FencesOf(batches), h.writes + WrittenOf(batches))
  }

  /** Every item was looked at once; exactly those for which the stream was usable and that can
      be encoded are queued; the others fail for their own reason. */
  predicate LookedAt(items: seq<Write>, looks: seq<bool>, accepted: seq<bool>, results: seq<Result<()>>) {
    && |looks| == |accepted| == |results| <= |items|
    && forall j :: 0 <= j < |looks| ==>
         && accepted[j] == (looks[j] && Fits(items[j]))
         && (!looks[j] ==> results[j] == Err(ConnectionError))
         && (looks[j] && !Fits(items[j]) ==> results[j] == Err(InvalidInput))
  }

  function SentBy(batches: seq<Batch>): seq<Byte> {
    if batches == [] then []
    else SentBy(batches[..|batches| - 1]) + batches[|batches| - 1].sent
  }

  function Upto(batches: seq<Batch>): nat {
    if batches == [] then 0 else batches[|batches| - 1].hi
  }

  /** The batches lie end to end, each carries exactly the accepted messages of its items, and
      each of those items has its batch's outcome as its result. */
  ghost predicate Covers(items: seq<Write>, accepted: seq<bool>, batches: seq<Batch>, results: seq<Result<()>>) {
    && |accepted| == |results| <= |items|
    && (forall j :: 0 <= j < |accepted| && accepted[j] ==> Fits(items[j]))
    && forall k :: 0 <= k < |batches| ==> CoversOne(items, accepted, batches, results, k)
  }

  ghost predicate CoversOne(items: seq<Write>, accepted: seq<bool>, batches: seq<Batch>,
                            results: seq<Result<()>>, k: nat)
    requires k < |batches| && |accepted| == |results| <= |items|
    requires forall j :: 0 <= j < |accepted| && accepted[j] ==> Fits(items[j])
  {
    var b := batches[k];
    && b.lo == Upto(batches[..k]) && b.lo < b.hi <= |results|
    && Flushed(b)
    && b.bytes == Messages(items, accepted, b.lo, b.hi)
    && 0 < |b.bytes| < WRITE_BATCH_BYTES + MAX_SET_MESSAGE
    && forall j :: b.lo <= j < b.hi && accepted[j] ==> results[j] == b.outcome
  }

  /** An item that was not queued: the stream was unusable, or it cannot be encoded. */
  predicate Turned(w: Write, r: Result<()>) {
    r == Err(ConnectionError) || (r == Err(InvalidInput) && !Fits(w))
  }

  ghost predicate Refusals(items: seq<Write>, accepted: seq<bool>, results: seq<Result<()>>) {
    && |accepted| == |results| <= |items|
    && forall j :: 0 <= j < |accepted| && !accepted[j] ==> Turned(items[j], results[j])
  }

  /** A whole bulk write. */
  ghost predicate Wrote(items: seq<Write>, accepted: seq<bool>, batches: seq<Batch>, results: seq<Result<()>>) {
    && |results| == |items|
    && Covers(items, accepted, batches, results)
    && Refusals(items, accepted, results)
    && Messages(items, accepted, Upto(batches), |items|) == []
  }

  // ---------- the program ----------

  /** The shared writer. Other clones may taint the stream or replace the session whenever the
      writer lock is not held. */
  class Link {
    var wire: seq<Byte>
    var tainted: bool
    var reconnecting: bool
    var generation: nat
    ghost var records: Records

    constructor ()
      ensures wire == [] && records == Records([], [], [])
    {
      wire, tainted, reconnecting, generation := [], false, false, 0;
      records := Records([], [], []);
    }

    method OtherClones()
      modifies this`tainted, this`reconnecting, this`generation
      ensures generation >= old(generation)
    {
      tainted := *;
      reconnecting := *;
      if * {
        generation := generation + 1;
      }
    }

    /** Whether the stream is usable now. */
    method StreamUsable() returns (ok: bool)
      modifies this`tainted, this`reconnecting, this`generation, this`records
      ensures ok == !tainted && records == old(records).(looks := old(records).looks + [ok])
    {
      OtherClones();
      ok := !tainted;
      records := records.(looks := records.looks + [ok]);
    }

    /** Take the writer lock and look at the taint and at the session. */
    method LookAtFence(generation: nat) returns (fence: Fence)
      modifies this`tainted, this`reconnecting, this`generation, this`records
      ensures fence == Fence(tainted, reconnecting || this.generation != generation)
      ensures records == old(records).(fences := old(records).fences + [fence])
    {
      OtherClones();
      fence := Fence(tainted, reconnecting || this.generation != generation);
      records := records.(fences := records.fences + [fence]);
    }

    /** A failed write may have sent some of the bytes. */
    method WriteAll(bytes: seq<Byte>) returns (ok: bool, ghost sent: seq<Byte>)
      modifies this`wire, this`records
      ensures wire == old(wire) + sent && sent <= bytes && (ok ==> sent == bytes)
      ensures records == old(records).(writes := old(records).writes + [ok])
    {
      if * {
        wire := wire + bytes;
        records := records.(writes := records.writes + [true]);
        return true, bytes;
      }
      var n: nat :| n <= |bytes|;
      wire := wire + bytes[..n];
      records := records.(writes := records.writes + [false]);
      return false, bytes[..n];
    }

    /** Write the queued items, unless the stream was tainted or the session replaced. */
    method FlushNodeWrites(generation: nat, buf: seq<Byte>, queued: seq<nat>, results: seq<Result<()>>)
      returns (after: seq<Result<()>>, ghost flushed: Batch)
      requires (forall q <- queued :: q < |results|) && (buf == [] ==> queued == [])
      modifies this
      ensures |after| == |results|
      ensures wire == old(wire) + flushed.sent
      ensures Flushed(flushed) && flushed.bytes == buf && flushed.lo == flushed.hi == 0
      ensures buf == [] ==> after == results && records == old(records) && flushed.sent == []
      ensures buf != [] ==>
                records == old(records).(fences := old(records).fences + [flushed.fence],
                                         writes := old(records).writes + if flushed.fence.Open() then [flushed.written] else [])
      ensures forall j :: 0 <= j < |results| && j !in queued ==> after[j] == results[j]
      ensures forall j :: 0 <= j < |results| && j in queued ==>
                after[j] == if flushed.outcome.Ok? then results[j] else flushed.outcome
      ensures flushed.sent != [] ==> !tainted && !reconnecting && this.generation == generation
    {
      after := results;
      flushed := Batch(0, 0, buf, Ok(()), [], Fence(false, false), true);
      if buf == [] {
        return;
      }
      // the writer lock is held from here on
      var fence := LookAtFence(generation);
      if fence.tainted || fence.replaced {
        var mark: Result<()> := Err(if fence.tainted then ConnectionError else Reconnecting);
        after := MarkAll(queued, after, mark);
        flushed := Batch(0, 0, buf, mark, [], fence, false);
        assert records.writes + [] == records.writes;
      } else {
        var ok;
        ghost var sent;
        ok, sent := WriteAll(buf);
        if !ok {
          after := MarkAll(queued, after, Err(Io));
        }
        flushed := Batch(0, 0, buf, if ok then Ok(()) else Err(Io), sent, fence, ok);
      }
    }

    /** Write all items in order, in batches. */
    method WriteNodeValues(generation: nat, items: seq<Write>)
      returns (results: seq<Result<()>>, ghost accepted: seq<bool>, ghost batches: seq<Batch>,
               ghost looks: seq<bool>)
      modifies this
      ensures Wrote(items, accepted, batches, results)
      ensures wire == old(wire) + SentBy(batches)
      ensures |looks| == |items| && LookedAt(items, looks, accepted, results)
      ensures records == Noted(old(records), looks, batches)
    {
      hide Covers, Refusals, Messages, SentBy, Noted, LookedAt;
      results, accepted, batches, looks := [], [], [], [];
      var buf: seq<Byte> := [];
      var queued: seq<nat> := [];
      NothingWritten(items, records);
      assert wire == wire + SentBy(batches);
      for i := 0 to |items|
        invariant |results| == |accepted| == |looks| == i
        invariant Progress(items, accepted, batches, results, buf, queued)
        invariant LookedAt(items, looks, accepted, results)
        invariant |buf| < WRITE_BATCH_BYTES
        invariant wire == old(wire) + SentBy(batches)
        invariant records == Noted(old(records), looks, batches)
      {
        var usable := StreamUsable();
        LookNoted(old(records), looks, batches, usable);
        var r: Result<()> := Err(ConnectionError);
        ghost var before := buf;
        if usable {
          r, buf := AppendValueMessage(buf, items[i].id, NativeOf(items[i].value));
        }
        AcceptNext(items, accepted, batches, results, before, queued, r, buf);
        LookNext(items, looks, accepted, results, usable, r);
        accepted, looks, results := accepted + [r.Ok?], looks + [usable], results + [r];
        if r.Ok? {
          queued := queued + [i];
        }
        if |buf| >= WRITE_BATCH_BYTES {
          ghost var was := results;
          ghost var flushed;
          results, flushed := FlushNodeWrites(generation, buf, queued, results);
          flushed := flushed.(lo := Upto(batches), hi := i + 1);
          FlushNext(items, accepted, batches, was, results, buf, queued, flushed);
          FlushLooks(items, looks, accepted, was, results, batches, buf, queued);
          FlushNoted(old(wire), old(records), looks, batches, flushed);
          batches, buf, queued := batches + [flushed], [], [];
        }
      }
      ghost var was := results;
      ghost var flushed;
      results, flushed := FlushNodeWrites(generation, buf, queued, results);
      FlushLooks(items, looks, accepted, was, results, batches, buf, queued);
      if buf != [] {
        flushed := flushed.(lo := Upto(batches), hi := |items|);
        FlushNext(items, accepted, batches, was, results, buf, queued, flushed);
        FlushNoted(old(wire), old(records), looks, batches, flushed);
        batches := batches + [flushed];
      }
      WroteAtTheEnd(items, accepted, batches, results);
    }
  }

  /** `results[i] = mark` for every queued `i`. */
  method MarkAll(queued: seq<nat>, results: seq<Result<()>>, mark: Result<()>) returns (after: seq<Result<()>>)
    requires forall q <- queued :: q < |results|
    ensures |after| == |results|
    ensures forall j :: 0 <= j < |results| ==> after[j] == if j in queued then mark else results[j]
  {
    after := results;
    for k := 0 to |queued|
      invariant |after| == |results|
      invariant forall j :: 0 <= j < |results| ==> after[j] == if j in queued[..k] then mark else results[j]
    {
      assert queued[k] in queued;
      after := after[queued[k] := mark];
    }
  }

  // ---------- the loop, step by step ----------

  /** Some items written or refused, the rest of the accepted ones waiting in `buf`. */
  ghost predicate Progress(items: seq<Write>, accepted: seq<bool>, batches: seq<Batch>,
                           results: seq<Result<()>>, buf: seq<Byte>, queued: seq<nat>)
  {
    && Covers(items, accepted, batches, results) && Refusals(items, accepted, results)
    && Upto(batches) <= |results|
    && buf == Messages(items, accepted, Upto(batches), |results|)
    && (buf == [] ==> queued == [])
    && (forall q: nat :: q in queued <==> Upto(batches) <= q < |results| && accepted[q])
    && (forall q :: q in queued ==> results[q] == Ok(()))
  }

  lemma OkIsOk(r: Result<()>)
    ensures r.Ok? ==> r == Ok(())
  {
    if r.Ok? {
      assert r.value == ();
    }
  }

  lemma NothingWritten(items: seq<Write>, h: Records)
    ensures Progress(items, [], [], [], [], []) && SentBy([]) == []
    ensures LookedAt(items, [], [], []) && Noted(h, [], []) == h
  {
    assert h.looks + [] == h.looks && h.fences + [] == h.fences && h.writes + [] == h.writes;
  }

  lemma LookNoted(h: Records, looks: seq<bool>, batches: seq<Batch>, usable: bool)
    ensures var r := Noted(h, looks, batches);
            Noted(h, looks + [usable], batches) == r.(looks := r.looks + [usable])
  {
  }

  lemma LookNext(items: seq<Write>, looks: seq<bool>, accepted: seq<bool>, results: seq<Result<()>>,
                 usable: bool, r: Result<()>)
    requires LookedAt(items, looks, accepted, results) && |looks| < |items|
    requires r == if !usable then Err(ConnectionError)
                  else if Fits(items[|looks|]) then Ok(()) else Err(InvalidInput)
    ensures LookedAt(items, looks + [usable], accepted + [r.Ok?], results + [r])
  {
  }

  /** A flush only touches the results of items that were queued. */
  lemma FlushLooks(items: seq<Write>, looks: seq<bool>, accepted: seq<bool>, was: seq<Result<()>>,
                   results: seq<Result<()>>, batches: seq<Batch>, buf: seq<Byte>, queued: seq<nat>)
    requires LookedAt(items, looks, accepted, was) && Progress(items, accepted, batches, was, buf, queued)
    requires |results| == |was|
    requires forall j :: 0 <= j < |results| && j !in queued ==> results[j] == was[j]
    ensures LookedAt(items, looks, accepted, results)
  {
    hide Covers, Refusals, Messages;
  }

  lemma {:induction false} MessagesExtend(items: seq<Write>, accepted: seq<bool>, lo: nat, hi: nat, more: seq<bool>)
    requires hi <= |accepted| && |accepted + more| <= |items|
    requires forall j :: 0 <= j < |accepted + more| && (accepted + more)[j] ==> Fits(items[j])
    ensures (forall j :: 0 <= j < |accepted| && accepted[j] ==> Fits(items[j]))
    ensures Messages(items, accepted + more, lo, hi) == Messages(items, accepted, lo, hi)
    decreases hi
  {
    forall j | 0 <= j < |accepted| && accepted[j] ensures Fits(items[j]) {
      assert (accepted + more)[j];
    }
    if lo < hi {
      MessagesExtend(items, accepted, lo, hi - 1, more);
    }
  }

  lemma SetMessageSize(w: Write)
    requires Fits(w)
    ensures 0 < |MessageBytes(SetMessage(w))| <= MAX_SET_MESSAGE
  {
    EscapeLength(BeI32(w.id));
    EscapeLength(EncodeValue(NativeOf(w.value)).value);
  }

  lemma AcceptNext(items: seq<Write>, accepted: seq<bool>, batches: seq<Batch>, results: seq<Result<()>>,
                   buf: seq<Byte>, queued: seq<nat>, r: Result<()>, next: seq<Byte>)
    requires Progress(items, accepted, batches, results, buf, queued) && |results| < |items|
    requires |buf| < WRITE_BATCH_BYTES
    requires var w := items[|results|];
             if r.Ok? then Fits(w) && next == buf + MessageBytes(SetMessage(w))
             else Turned(w, r) && next == buf
    ensures Progress(items, accepted + [r.Ok?], batches, results + [r], next,
                     if r.Ok? then queued + [|results|] else queued)
    ensures |next| < WRITE_BATCH_BYTES + MAX_SET_MESSAGE
  {
    hide Covers, Refusals, Messages, MessageBytes;
    var i := |results|;
    if r.Ok? {
      SetMessageSize(items[i]);
    }
    CoversLengths(items, accepted, batches, results);
    CoversExtend(items, accepted, batches, results, r);
    CoversLengths(items, accepted + [r.Ok?], batches, results + [r]);
    RefusalsExtend(items, accepted, results, r);
    MessagesPush(items, accepted, Upto(batches), r);
    assert buf + [] == buf;
    OkIsOk(r);
    QueuePush(accepted, results, queued, Upto(batches), r);
  }

  lemma CoversLengths(items: seq<Write>, accepted: seq<bool>, batches: seq<Batch>, results: seq<Result<()>>)
    requires Covers(items, accepted, batches, results)
    ensures |accepted| == |results| <= |items|
    ensures forall j :: 0 <= j < |accepted| && accepted[j] ==> Fits(items[j])
  {
  }

  lemma RefusalsExtend(items: seq<Write>, accepted: seq<bool>, results: seq<Result<()>>, r: Result<()>)
    requires Refusals(items, accepted, results) && |results| < |items|
    requires r.Err? ==> Turned(items[|results|], r)
    ensures Refusals(items, accepted + [r.Ok?], results + [r])
  {
  }

  lemma QueuePush(accepted: seq<bool>, results: seq<Result<()>>, queued: seq<nat>, lo: nat, r: Result<()>)
    requires |accepted| == |results| && lo <= |results| && (r.Ok? ==> r == Ok(()))
    requires forall q: nat :: q in queued <==> lo <= q < |results| && accepted[q]
    requires forall q :: q in queued ==> results[q] == Ok(())
    ensures var queued' := if r.Ok? then queued + [|results|] else queued;
            && (forall q: nat :: q in queued' <==> lo <= q < |results| + 1 && (accepted + [r.Ok?])[q])
            && (forall q :: q in queued' ==> (results + [r])[q] == Ok(()))
  {
  }

  lemma MessagesPush(items: seq<Write>, accepted: seq<bool>, lo: nat, r: Result<()>)
    requires |accepted| < |items| && lo <= |accepted|
    requires forall j :: 0 <= j < |accepted| && accepted[j] ==> Fits(items[j])
    requires r.Ok? ==> Fits(items[|accepted|])
    ensures Messages(items, accepted + [r.Ok?], lo, |accepted| + 1) ==
            Messages(items, accepted, lo, |accepted|)
            + (if r.Ok? then MessageBytes(SetMessage(items[|accepted|])) else [])
  {
    hide MessageBytes;
    MessagesExtend(items, accepted, lo, |accepted|, [r.Ok?]);
  }

  lemma CoversExtend(items: seq<Write>, accepted: seq<bool>, batches: seq<Batch>, results: seq<Result<()>>, r: Result<()>)
    requires Covers(items, accepted, batches, results) && |results| < |items|
    requires r.Ok? ==> Fits(items[|results|])
    ensures Covers(items, accepted + [r.Ok?], batches, results + [r])
  {
    hide Messages, Flushed;
    var accepted', results' := accepted + [r.Ok?], results + [r];
    forall k | 0 <= k < |batches| ensures CoversOne(items, accepted', batches, results', k) {
      assert CoversOne(items, accepted, batches, results, k);
      MessagesExtend(items, accepted, batches[k].lo, batches[k].hi, [r.Ok?]);
    }
  }

  /** A flush closes the batch and settles its items' results. */
  lemma FlushNext(items: seq<Write>, accepted: seq<bool>, batches: seq<Batch>, was: seq<Result<()>>,
                  results: seq<Result<()>>, buf: seq<Byte>, queued: seq<nat>, b: Batch)
    requires Progress(items, accepted, batches, was, buf, queued)
    requires 0 < |buf| < WRITE_BATCH_BYTES + MAX_SET_MESSAGE
    requires |results| == |was|
    requires b.lo == Upto(batches) && b.hi == |was| && b.bytes == buf && Flushed(b)
    requires forall j :: 0 <= j < |results| && j !in queued ==> results[j] == was[j]
    requires forall j :: 0 <= j < |results| && j in queued ==>
               results[j] == if b.outcome.Ok? then was[j] else b.outcome
    ensures Progress(items, accepted, batches + [b], results, [], [])
  {
    hide Messages;
    var all := batches + [b];
    BatchesEnd(items, accepted, batches, was);
    assert b.lo < b.hi by { MessagesNothing(items, accepted, b.lo, b.hi); }
    forall k | 0 <= k < |all| ensures CoversOne(items, accepted, all, results, k) {
      if k < |batches| {
        assert CoversOne(items, accepted, batches, was, k);
        assert all[..k] == batches[..k];
        assert forall j :: batches[k].lo <= j < batches[k].hi ==> j !in queued;
      } else {
        assert all[..k] == batches;
        OkIsOk(b.outcome);
      }
    }
    MessagesNothing(items, accepted, b.hi, |results|);
  }

  lemma MessagesNothing(items: seq<Write>, accepted: seq<bool>, lo: nat, hi: nat)
    requires hi <= |accepted| <= |items|
    requires forall j :: 0 <= j < |accepted| && accepted[j] ==> Fits(items[j])
    ensures hi <= lo ==> Messages(items, accepted, lo, hi) == []
  {
  }

  /** No batch reaches beyond the last one's end. */
  lemma {:induction false} BatchesEnd(items: seq<Write>, accepted: seq<bool>, batches: seq<Batch>, results: seq<Result<()>>)
    requires Covers(items, accepted, batches, results)
    ensures forall k :: 0 <= k < |batches| ==> batches[k].hi <= Upto(batches)
    decreases |batches|
  {
    hide Messages, Flushed;
    if batches != [] {
      var last := |batches| - 1;
      forall k | 0 <= k < last ensures CoversOne(items, accepted, batches[..last], results, k) {
        assert CoversOne(items, accepted, batches, results, k);
        assert batches[..last][..k] == batches[..k];
      }
      BatchesEnd(items, accepted, batches[..last], results);
      assert CoversOne(items, accepted, batches, results, last);
    }
  }

  /** What a flush sent and recorded comes behind what was there. */
  lemma FlushNoted(wire: seq<Byte>, h: Records, looks: seq<bool>, batches: seq<Batch>, b: Batch)
    ensures wire + SentBy(batches + [b]) == (wire + SentBy(batches)) + b.sent
    ensures var r := Noted(h, looks, batches);
            Noted(h, looks, batches + [b]) ==
            r.(fences := r.fences + [b.fence],
               writes := r.writes + if b.fence.Open() then [b.written] else [])
  {
    assert (batches + [b])[..|batches|] == batches;
  }

  lemma WroteAtTheEnd(items: seq<Write>, accepted: seq<bool>, batches: seq<Batch>, results: seq<Result<()>>)
    requires Progress(items, accepted, batches, results, [], []) && |results| == |items|
    ensures Wrote(items, accepted, batches, results)
  {
  }

  // ---------- what the results mean ----------

  lemma {:induction false} MessagesSplit(items: seq<Write>, accepted: seq<bool>, lo: nat, mid: nat, hi: nat)
    requires lo <= mid <= hi <= |accepted| <= |items|
    requires forall j :: 0 <= j < |accepted| && accepted[j] ==> Fits(items[j])
    ensures Messages(items, accepted, lo, hi) == Messages(items, accepted, lo, mid) + Messages(items, accepted, mid, hi)
    decreases hi
  {
    hide MessageBytes;
    if mid < hi {
      MessagesSplit(items, accepted, lo, mid, hi - 1);
    } else {
      assert Messages(items, accepted, lo, mid) + [] == Messages(items, accepted, lo, mid);
    }
  }

  /** An accepted item's whole message is part of any batch that covers it. */
  lemma MessageInside(items: seq<Write>, accepted: seq<bool>, lo: nat, hi: nat, j: nat)
    requires lo <= j < hi <= |accepted| <= |items| && accepted[j]
    requires forall j :: 0 <= j < |accepted| && accepted[j] ==> Fits(items[j])
    ensures Messages(items, accepted, lo, hi) ==
            Messages(items, accepted, lo, j) + MessageBytes(SetMessage(items[j]))
            + Messages(items, accepted, j + 1, hi)
    ensures Messages(items, accepted, lo, hi) != []
  {
    hide MessageBytes;
    MessagesSplit(items, accepted, lo, j + 1, hi);
    SetMessageSize(items[j]);
  }

  lemma {:induction false} SomeAccepted(items: seq<Write>, accepted: seq<bool>, lo: nat, hi: nat)
    requires hi <= |accepted| <= |items|
    requires forall j :: 0 <= j < |accepted| && accepted[j] ==> Fits(items[j])
    requires Messages(items, accepted, lo, hi) != []
    ensures exists j :: lo <= j < hi && accepted[j]
    decreases hi
  {
    hide MessageBytes;
    if lo < hi && !accepted[hi - 1] {
      SomeAccepted(items, accepted, lo, hi - 1);
    }
  }

  /** The batch that covers an item. */
  lemma {:induction false} BatchOf(items: seq<Write>, accepted: seq<bool>, batches: seq<Batch>,
                                   results: seq<Result<()>>, j: nat)
    requires Covers(items, accepted, batches, results) && j < Upto(batches)
    ensures exists k :: 0 <= k < |batches| && batches[k].lo <= j < batches[k].hi
    decreases |batches|
  {
    hide Messages, Flushed;
    var last := |batches| - 1;
    assert CoversOne(items, accepted, batches, results, last);
    if j < batches[last].lo {
      forall k | 0 <= k < last ensures CoversOne(items, accepted, batches[..last], results, k) {
        assert CoversOne(items, accepted, batches, results, k);
        assert batches[..last][..k] == batches[..k];
      }
      BatchOf(items, accepted, batches[..last], results, j);
      var k :| 0 <= k < last && batches[..last][k].lo <= j < batches[..last][k].hi;
      assert batches[k].lo <= j < batches[k].hi;
    }
  }

  /** An item succeeds exactly when it was queued and its whole message lay in a batch that was
      written in full. */
  lemma OkMeansWritten(items: seq<Write>, accepted: seq<bool>, batches: seq<Batch>,
                       results: seq<Result<()>>, j: nat)
    requires Wrote(items, accepted, batches, results) && j < |items|
    ensures results[j].Ok? <==>
              accepted[j]
              && exists k :: && 0 <= k < |batches| && batches[k].lo <= j < batches[k].hi
                             && batches[k].outcome.Ok?
    ensures results[j].Ok? ==>
              Fits(items[j])
              && exists k, before, after ::
                   0 <= k < |batches|
                   && batches[k].sent == before + MessageBytes(SetMessage(items[j])) + after
  {
    hide Messages, MessageBytes;
    if accepted[j] {
      if j >= Upto(batches) {
        MessageInside(items, accepted, Upto(batches), |items|, j);
        assert false;
      }
      BatchOf(items, accepted, batches, results, j);
      var k :| 0 <= k < |batches| && batches[k].lo <= j < batches[k].hi;
      assert CoversOne(items, accepted, batches, results, k);
      var b := batches[k];
      MessageInside(items, accepted, b.lo, b.hi, j);
      OkIsOk(b.outcome);
      OnlyBatch(items, accepted, batches, results, j);
      if results[j].Ok? {
        assert b.sent == Messages(items, accepted, b.lo, j) + MessageBytes(SetMessage(items[j]))
                         + Messages(items, accepted, j + 1, b.hi);
      }
    }
  }

  lemma OnlyBatch(items: seq<Write>, accepted: seq<bool>, batches: seq<Batch>,
                  results: seq<Result<()>>, j: nat)
    requires Covers(items, accepted, batches, results) && j < |results| && accepted[j]
    ensures forall k :: 0 <= k < |batches| && batches[k].lo <= j < batches[k].hi ==>
              results[j] == batches[k].outcome
  {
    forall k | 0 <= k < |batches| && batches[k].lo <= j < batches[k].hi
      ensures results[j] == batches[k].outcome
    {
      assert CoversOne(items, accepted, batches, results, k);
    }
  }

  /** The set messages a caller would send one at a time. */
  function Sets(items: seq<Write>): (messages: seq<Message>)
    ensures AllSendable(messages)
  {
    if items == [] then []
    else if Fits(items[0]) then
      var messages := [SetMessage(items[0])] + Sets(items[1..]);
      assert messages[1..] == Sets(items[1..]);
      messages
    else Sets(items[1..])
  }

  lemma {:induction false} SetsPush(items: seq<Write>, w: Write)
    ensures StreamBytes(Sets(items + [w])) ==
            StreamBytes(Sets(items)) + (if Fits(w) then MessageBytes(SetMessage(w)) else [])
  {
    hide MessageBytes;
    var bytes := if Fits(w) then MessageBytes(SetMessage(w)) else [];
    if items == [] {
      assert [w][1..] == [];
      if Fits(w) {
        assert [SetMessage(w)] + [] == [SetMessage(w)] && [SetMessage(w)][1..] == [];
        assert MessageBytes(SetMessage(w)) + [] == [] + bytes;
      }
    } else {
      assert (items + [w])[1..] == items[1..] + [w];
      SetsPush(items[1..], w);
      SetsFirst(items);
      SetsFirst(items + [w]);
      assert bytes == [] ==> StreamBytes(Sets(items)) + bytes == StreamBytes(Sets(items));
    }
  }

  lemma SetsFirst(items: seq<Write>)
    requires items != []
    ensures StreamBytes(Sets(items)) ==
            (if Fits(items[0]) then MessageBytes(SetMessage(items[0])) else [])
            + StreamBytes(Sets(items[1..]))
  {
    hide MessageBytes;
    var rest := Sets(items[1..]);
    if Fits(items[0]) {
      assert ([SetMessage(items[0])] + rest)[1..] == rest;
    } else {
      assert [] + rest == rest;
      assert [] + StreamBytes(rest) == StreamBytes(rest);
    }
  }

  lemma {:induction false} AcceptedAreSets(items: seq<Write>, accepted: seq<bool>, hi: nat)
    requires |accepted| == |items| && hi <= |items|
    requires forall j :: 0 <= j < |items| ==> accepted[j] == Fits(items[j])
    ensures Messages(items, accepted, 0, hi) == StreamBytes(Sets(items[..hi]))
  {
    hide MessageBytes;
    if hi > 0 {
      AcceptedAreSets(items, accepted, hi - 1);
      SetsPush(items[..hi - 1], items[hi - 1]);
      assert items[..hi] == items[..hi - 1] + [items[hi - 1]];
    }
  }

  lemma {:induction false} SentIsMessages(items: seq<Write>, accepted: seq<bool>, batches: seq<Batch>,
                                          results: seq<Result<()>>)
    requires Covers(items, accepted, batches, results)
    requires forall k :: 0 <= k < |batches| ==> batches[k].outcome.Ok?
    ensures Upto(batches) <= |results|
    ensures SentBy(batches) == Messages(items, accepted, 0, Upto(batches))
    decreases |batches|
  {
    hide Messages;
    if batches == [] {
      MessagesNothing(items, accepted, 0, 0);
    } else {
      var last := |batches| - 1;
      forall k | 0 <= k < last ensures CoversOne(items, accepted, batches[..last], results, k) {
        assert CoversOne(items, accepted, batches, results, k);
        assert batches[..last][..k] == batches[..k];
      }
      SentIsMessages(items, accepted, batches[..last], results);
      var b := batches[last];
      assert CoversOne(items, accepted, batches, results, last);
      OkIsOk(b.outcome);
      MessagesSplit(items, accepted, 0, b.lo, b.hi);
    }
  }

  /** When every item that can be encoded succeeds, the transport has received exactly what
      separate set messages would have sent. */
  lemma BulkIsOneAtATime(items: seq<Write>, accepted: seq<bool>, batches: seq<Batch>, results: seq<Result<()>>)
    requires Wrote(items, accepted, batches, results)
    requires forall j :: 0 <= j < |items| && Fits(items[j]) ==> results[j].Ok?
    ensures SentBy(batches) == StreamBytes(Sets(items))
  {
    hide Messages, Flushed;
    forall k | 0 <= k < |batches| ensures batches[k].outcome.Ok? {
      var b := batches[k];
      assert CoversOne(items, accepted, batches, results, k);
      SomeAccepted(items, accepted, b.lo, b.hi);
      var j :| b.lo <= j < b.hi && accepted[j];
      assert results[j] == b.outcome;
    }
    SentIsMessages(items, accepted, batches, results);
    MessagesSplit(items, accepted, 0, Upto(batches), |items|);
    assert SentBy(batches) + [] == SentBy(batches);
    AcceptedAreSets(items, accepted, |items|);
    assert items[..|items|] == items;
  }

  // ---------- why an item fails ----------

  const NO_RECORDS := Records([], [], [])

  /** Nothing bad was recorded: the stream was always usable, every flush found its session, and
      every write went through. */
  ghost predicate Clean(r: Records) {
    && false !in r.looks
    && (forall fence <- r.fences :: fence.Open())
    && false !in r.writes
  }

  /** Bulk writes that follow each other keep one record. */
  lemma CleanParts(h: Records, looks: seq<bool>, batches: seq<Batch>)
    ensures Clean(Noted(h, looks, batches)) <==> Clean(h) && Clean(Noted(NO_RECORDS, looks, batches))
  {
    hide FencesOf, WrittenOf;
    var now := Noted(NO_RECORDS, looks, batches);
    assert now == Records(looks, FencesOf(batches), WrittenOf(batches));
    BothClean(h, now);
  }

  lemma BothClean(a: Records, b: Records)
    ensures Clean(Records(a.looks + b.looks, a.fences + b.fences, a.writes + b.writes)) <==> Clean(a) && Clean(b)
  {
    var fences := a.fences + b.fences;
    forall fence ensures fence in fences <==> fence in a.fences || fence in b.fences {
    }
  }

  lemma {:induction false} CleanBatches(batches: seq<Batch>)
    requires Clean(Records([], FencesOf(batches), WrittenOf(batches)))
    ensures forall b <- batches :: b.fence.Open() && b.written
    decreases |batches|
  {
    if batches != [] {
      var fewer, last := batches[..|batches| - 1], batches[|batches| - 1];
      assert FencesOf(batches) == FencesOf(fewer) + [last.fence];
      assert forall fence <- FencesOf(fewer) + [last.fence] :: fence.Open();
      assert last.fence in FencesOf(fewer) + [last.fence];
      assert forall fence <- FencesOf(fewer) :: fence in FencesOf(fewer) + [last.fence];
      CleanBatches(fewer);
      assert batches == fewer + [last];
    }
  }

  /** An item fails only because it cannot be encoded, because the stream was seen unusable when
      its turn came, or because the one batch that holds it met a closed fence or a failed
      write. */
  lemma FailureHasACause(items: seq<Write>, looks: seq<bool>, accepted: seq<bool>, batches: seq<Batch>,
                         results: seq<Result<()>>, j: nat)
    requires Wrote(items, accepted, batches, results) && j < |items|
    requires |looks| == |items| && LookedAt(items, looks, accepted, results)
    ensures results[j] == Err(InvalidInput) <==> looks[j] && !Fits(items[j])
    ensures results[j].Err? && Fits(items[j]) ==>
              !looks[j]
              || exists k :: && 0 <= k < |batches| && batches[k].lo <= j < batches[k].hi
                             && !(batches[k].fence.Open() && batches[k].written)
  {
    hide Messages, MessageBytes;
    if accepted[j] {
      OkMeansWritten(items, accepted, batches, results, j);
      if j >= Upto(batches) {
        MessageInside(items, accepted, Upto(batches), |items|, j);
        assert false;
      }
      BatchOf(items, accepted, batches, results, j);
      var k :| 0 <= k < |batches| && batches[k].lo <= j < batches[k].hi;
      assert CoversOne(items, accepted, batches, results, k);
    }
  }

  /** A bulk write during which nothing bad was recorded writes every item that can be encoded,
      and the transport receives exactly their separate set messages. */
  lemma HealthyBulk(items: seq<Write>, looks: seq<bool>, accepted: seq<bool>, batches: seq<Batch>,
                    results: seq<Result<()>>)
    requires Wrote(items, accepted, batches, results)
    requires |looks| == |items| && LookedAt(items, looks, accepted, results)
    requires Clean(Noted(NO_RECORDS, looks, batches))
    ensures forall j :: 0 <= j < |items| ==> results[j].Ok? == Fits(items[j])
    ensures SentBy(batches) == StreamBytes(Sets(items))
  {
    hide Wrote, SentBy, StreamBytes, Sets, Fits;
    assert Noted(NO_RECORDS, looks, batches) == Records(looks, FencesOf(batches), WrittenOf(batches));
    CleanBatches(batches);
    forall j | 0 <= j < |items| ensures results[j].Ok? == Fits(items[j]) {
      FailureHasACause(items, looks, accepted, batches, results, j);
      assert looks[j] in looks && forall k :: 0 <= k < |batches| ==> batches[k] in batches;
    }
    BulkIsOneAtATime(items, accepted, batches, results);
  }
}
