/** Applying a dump of node values: model selectors first, and nothing after one that failed. */
module Restore {
  import opened Basics
  import opened Sorting
  import opened Reader
  import opened BinaryValues
  import opened BulkWrite
  import ClientMessages

  datatype DumpEntry = DumpEntry(fullname: string, id: Int32, value: Data)

  // ---------- the order ----------

  /** The part of a path behind its last slash. */
  function LastPart(name: string): string {
    if name == [] || name[|name| - 1] == '/' then []
    else LastPart(name[..|name| - 1]) + [name[|name| - 1]]
  }

  function Slashes(name: string): nat {
    if name == [] then 0 else (if name[0] == '/' then 1 else 0) + Slashes(name[1..])
  }

  predicate IsSelector(e: DumpEntry) {
    LastPart(e.fullname) == "mdl"
  }

  /** A selector is a path whose last part is `mdl`: the whole name, or what follows a slash. */
  lemma SelectorPath(e: DumpEntry)
    ensures IsSelector(e) <==>
              e.fullname == "mdl" || exists parent :: e.fullname == parent + "/mdl"
  {
    hide LastPart;
    var name := e.fullname;
    if IsSelector(e) {
      SelectorEnds(name);
      if name != "mdl" {
        var parent := name[..|name| - 4];
        assert name == parent + "/mdl";
      }
    }
    if name == "mdl" {
      LastPartIs("", "mdl");
      assert "" + name == name;
    } else if parent :| name == parent + "/mdl" {
      LastPartIs(parent + "/", "mdl");
      assert parent + "/mdl" == (parent + "/") + "mdl";
    }
  }

  lemma SelectorEnds(name: string)
    requires LastPart(name) == "mdl"
    ensures name == "mdl" || (|name| >= 4 && name == name[..|name| - 4] + "/mdl")
  {
    hide LastPart;
    LastPartFollows(name);
    assert name[0..] == name;
    if name != "mdl" {
      BehindSlash(name);
    }
  }

  lemma BehindSlash(name: string)
    requires |name| >= 4 && name[|name| - 3..] == "mdl" && name[|name| - 4] == '/'
    ensures name == name[..|name| - 4] + "/mdl"
  {
    var n := |name|;
    assert name == name[..n - 4] + ([name[n - 4]] + name[n - 3..]);
    assert ['/'] + "mdl" == "/mdl";
  }

  /** The last part has no slash, and is all of the name or stands behind one. */
  lemma {:induction false} LastPartFollows(name: string)
    ensures var part := LastPart(name);
            && |part| <= |name| && name[|name| - |part|..] == part && '/' !in part
            && (|part| == |name| || name[|name| - |part| - 1] == '/')
    decreases |name|
  {
    if name != [] && name[|name| - 1] != '/' {
      LastPartFollows(name[..|name| - 1]);
    }
  }

  lemma {:induction false} LastPartIs(front: string, part: string)
    requires '/' !in part && (front == "" || front[|front| - 1] == '/')
    ensures LastPart(front + part) == part
    decreases |part|
  {
    var name := front + part;
    if part == "" {
      assert name == front;
    } else {
      var last := part[|part| - 1];
      assert name[|name| - 1] == last && last in part;
      assert name[..|name| - 1] == front + part[..|part| - 1];
      LastPartIs(front, part[..|part| - 1]);
    }
  }

  lemma {:induction false} SlashesCount(name: string)
    ensures Slashes(name) == multiset(name)['/']
  {
    if name != [] {
      SlashesCount(name[1..]);
      assert name == [name[0]] + name[1..];
    }
  }

  datatype Key = Key(other: bool, depth: nat)

  function RestoreOrderKey(e: DumpEntry): Key {
    if IsSelector(e) then Key(false, Slashes(e.fullname)) else Key(true, 0)
  }

  predicate AtMost(a: Key, b: Key) {
    (!a.other && b.other) || (a.other == b.other && a.depth <= b.depth)
  }

  predicate Before(a: DumpEntry, b: DumpEntry) {
    AtMost(RestoreOrderKey(a), RestoreOrderKey(b))
  }

  function HasKey(k: Key): DumpEntry -> bool {
    (e: DumpEntry) => RestoreOrderKey(e) == k
  }

  /** The entries in the order they are applied. */
  function Ordered(entries: seq<DumpEntry>): seq<DumpEntry> {
    Sort(Before, entries)
  }

  ghost predicate Sorted(entries: seq<DumpEntry>) {
    SortedBy(Before, entries)
  }

  /** The order is a permutation that puts every selector first, shallower ones before deeper
      ones, and leaves entries of the same rank in the order of the dump. */
  lemma OrderedIsStableSort(entries: seq<DumpEntry>)
    ensures Sorted(Ordered(entries))
    ensures multiset(Ordered(entries)) == multiset(entries) && |Ordered(entries)| == |entries|
    ensures forall k :: Filter(HasKey(k), Ordered(entries)) == Filter(HasKey(k), entries)
  {
    SortSorts(Before, entries);
    forall k ensures Filter(HasKey(k), Ordered(entries)) == Filter(HasKey(k), entries) {
      SortStable(Before, HasKey(k), entries);
    }
  }

  /** Selectors come first, and outer ones before those nested deeper. */
  lemma SelectorsFirst(entries: seq<DumpEntry>, i: nat, j: nat)
    requires Sorted(entries) && i < j < |entries| && IsSelector(entries[j])
    ensures IsSelector(entries[i]) && Slashes(entries[i].fullname) <= Slashes(entries[j].fullname)
  {
    assert Before(entries[i], entries[j]);
  }

  // ---------- what a restore did ----------

  /** One bulk write: the entries it took, by their place in the order. */
  datatype Call = Call(
    from: nat,
    to: nat,
    slots: seq<nat>,
    looks: seq<bool>,
    accepted: seq<bool>,
    batches: seq<Batch>,
    results: seq<Result<()>>)

  datatype Fate =
    | Blocked
    | Waiting
    | Written(call: nat, pos: nat)

  function WriteOf(e: DumpEntry): Write {
    Write(e.id, e.value)
  }

  function WritesOf(o: seq<DumpEntry>, slots: seq<nat>): seq<Write>
    requires forall p :: 0 <= p < |slots| ==> slots[p] < |o|
  {
    seq(|slots|, p requires 0 <= p < |slots| => WriteOf(o[slots[p]]))
  }

  /** A call covers slots of its own stretch, in order; a selector is alone in its call. */
  ghost predicate CallOk(o: seq<DumpEntry>, calls: seq<Call>, fate: seq<Fate>, c: nat)
    requires c < |calls|
  {
    var call := calls[c];
    && call.from == (if c == 0 then 0 else calls[c - 1].to)
    && call.slots != [] && |call.results| == |call.slots|
    && (forall p :: 0 <= p < |call.slots| ==> call.from <= call.slots[p] < call.to && call.slots[p] < |o|)
    && (forall p, q :: 0 <= p < q < |call.slots| ==> call.slots[p] < call.slots[q])
    && (forall p :: 0 <= p < |call.slots| ==> call.slots[p] < |fate| && fate[call.slots[p]] == Written(c, p))
    && (forall p :: 0 <= p < |call.slots| && IsSelector(o[call.slots[p]]) ==> |call.slots| == 1)
    && Bulk(WritesOf(o, call.slots), call)
  }

  /** A whole bulk write, with one look for each of its items. */
  ghost predicate Bulk(items: seq<Write>, call: Call) {
    && Wrote(items, call.accepted, call.batches, call.results)
    && |call.looks| == |items| && LookedAt(items, call.looks, call.accepted, call.results)
  }

  type Results = seq<(string, Result<()>)>

  /** An attempted selector that failed. */
  predicate Failing(o: seq<DumpEntry>, fate: seq<Fate>, results: Results, t: nat) {
    && t < |o| && t < |fate| && t < |results|
    && IsSelector(o[t]) && fate[t].Written? && results[t].1.Err?
  }

  ghost predicate Stopped(o: seq<DumpEntry>, fate: seq<Fate>, results: Results, s: nat) {
    exists t: nat :: t < s && Failing(o, fate, results, t)
  }

  ghost predicate FateOk(o: seq<DumpEntry>, readOnly: string -> bool, calls: seq<Call>, fate: seq<Fate>,
                         results: Results, s: nat)
    requires s < |fate| == |results| <= |o|
  {
    && results[s].0 == o[s].fullname
    && match fate[s]
       case Blocked =>
         results[s].1 == Err(InvalidInput)
         && (readOnly(o[s].fullname) || Stopped(o, fate, results, s))
       case Waiting => !readOnly(o[s].fullname)
       case Written(c, p) =>
         && !readOnly(o[s].fullname)
         && c < |calls| && p < |calls[c].slots| && calls[c].slots[p] == s
         && p < |calls[c].results| && results[s].1 == calls[c].results[p]
  }

  /** Once an attempted selector has failed, its call is the last and later entries are blocked. */
  ghost predicate Stops(o: seq<DumpEntry>, calls: seq<Call>, fate: seq<Fate>, results: Results) {
    forall t: nat :: Failing(o, fate, results, t) ==>
      fate[t].call == |calls| - 1 && forall s: nat :: t < s < |fate| ==> fate[s] == Blocked
  }

  /** A restore, up to the entries that still wait in `batch`. */
  ghost predicate Going(o: seq<DumpEntry>, readOnly: string -> bool, calls: seq<Call>, fate: seq<Fate>,
                        results: Results, batch: seq<nat>)
  {
    && |fate| == |results| <= |o|
    && (forall s: nat :: s < |fate| ==> FateOk(o, readOnly, calls, fate, results, s))
    && (forall c: nat :: c < |calls| ==> CallOk(o, calls, fate, c))
    && Stops(o, calls, fate, results)
    && (forall s: nat :: s < |fate| && fate[s] == Waiting <==> s in batch)
    && (forall p, q :: 0 <= p < q < |batch| ==> batch[p] < batch[q])
    && (forall p :: 0 <= p < |batch| ==> Floor(calls) <= batch[p] < |fate|)
    && Floor(calls) <= |fate|
  }

  function Floor(calls: seq<Call>): nat {
    if calls == [] then 0 else calls[|calls| - 1].to
  }

  function SentByCalls(calls: seq<Call>): seq<Byte> {
    if calls == [] then [] else SentByCalls(calls[..|calls| - 1]) + SentBy(calls[|calls| - 1].batches)
  }

  /** What the shared writer has recorded after these calls. */
  function NotedCalls(h: Records, calls: seq<Call>): Records {
    if calls == [] then h
    else
      var last := calls[|calls| - 1];
      Noted(NotedCalls(h, calls[..|calls| - 1]), last.looks, last.batches)
  }

  /** A whole restore of the ordered entries `o`. */
  ghost predicate Restored(o: seq<DumpEntry>, readOnly: string -> bool, calls: seq<Call>, fate: seq<Fate>,
                           results: Results)
  {
    |results| == |o| && Going(o, readOnly, calls, fate, results, [])
  }

  // ---------- the program ----------

  /** Write the waiting entries and note their results. */
  method FlushRestoreBatch(link: Link, generation: nat, o: seq<DumpEntry>, batch: seq<nat>, results: Results)
    returns (after: Results, ghost call: Call)
    requires forall p :: 0 <= p < |batch| ==> batch[p] < |results| <= |o|
    requires forall p, q :: 0 <= p < q < |batch| ==> batch[p] < batch[q]
    modifies link
    ensures |after| == |results| && call.slots == batch && |call.results| == |batch|
    ensures Bulk(WritesOf(o, batch), call)
    ensures link.wire == old(link.wire) + SentBy(call.batches)
    ensures link.records == Noted(old(link.records), call.looks, call.batches)
    ensures forall s :: 0 <= s < |results| && s !in batch ==> after[s] == results[s]
    ensures forall p :: 0 <= p < |batch| ==> after[batch[p]] == (results[batch[p]].0, call.results[p])
  {
    hide Wrote, LookedAt;
    var items := WritesOf(o, batch);
    var written;
    ghost var accepted, batches, looks;
    written, accepted, batches, looks := link.WriteNodeValues(generation, items);
    WroteLength(items, accepted, batches, written);
    call := Call(0, 0, batch, looks, accepted, batches, written);
    after := results;
    for p := 0 to |batch|
      invariant |after| == |results|
      invariant forall s :: 0 <= s < |results| && s !in batch[..p] ==> after[s] == results[s]
      invariant forall q :: 0 <= q < p ==> after[batch[q]] == (results[batch[q]].0, written[q])
    {
      assert batch[p] in batch;
      after := after[batch[p] := (after[batch[p]].0, written[p])];
    }
    assert batch[..|batch|] == batch;
  }

  lemma WroteLength(items: seq<Write>, accepted: seq<bool>, batches: seq<Batch>, results: seq<Result<()>>)
    requires Wrote(items, accepted, batches, results)
    ensures |results| == |items|
  {
  }

  /** Flush, and record the call it made, if there was anything to write. */
  method SettleBatch(link: Link, generation: nat, o: seq<DumpEntry>, ghost readOnly: string -> bool,
                     batch: seq<nat>, results: Results, ghost calls: seq<Call>, ghost fate: seq<Fate>)
    returns (after: Results, ghost calls': seq<Call>, ghost fate': seq<Fate>)
    requires Ready(o, readOnly, calls, fate, results, batch)
    modifies link
    ensures |after| == |results|
    ensures Midway(o, readOnly, calls', fate', after, [],
                   batch != [] && IsSelector(o[batch[0]]) && after[batch[0]].1.Err?)
    ensures forall wire :: old(link.wire) == wire + SentByCalls(calls) ==>
              link.wire == wire + SentByCalls(calls')
    ensures forall h :: old(link.records) == NotedCalls(h, calls) ==> link.records == NotedCalls(h, calls')
  {
    hide Bulk, CallOk, SentBy, Noted, IsSelector, Stopped, SentByCalls, NotedCalls;
    ghost var call;
    after, call := FlushRestoreBatch(link, generation, o, batch, results);
    if batch == [] {
      NothingToFlush(o, call, results, after, old(link.records));
      calls', fate' := calls, fate;
      assert link.wire == old(link.wire) && link.records == old(link.records);
    } else {
      Settle(o, readOnly, calls, fate, results, after, batch, call);
      calls', fate' := calls + [Placed(calls, fate, call)], Settled(fate, batch, |calls|);
      SentPush(calls, Placed(calls, fate, call));
    }
  }

  /** Apply a dump. */
  method Restore(link: Link, readOnly: string -> bool, dump: seq<DumpEntry>)
    returns (results: Results, ghost calls: seq<Call>, ghost fate: seq<Fate>)
    modifies link
    ensures Restored(Ordered(dump), readOnly, calls, fate, results)
    ensures link.wire == old(link.wire) + SentByCalls(calls)
    ensures link.records == NotedCalls(old(link.records), calls)
  {
    hide SentByCalls, NotedCalls, Midway, Ready, Going, IsSelector, Ordered;
    var generation := link.generation;
    var o := Ordered(dump);
    OrderedIsStableSort(dump);
    results, calls, fate := [], [], [];
    var batch: seq<nat> := [];
    var selectorFailed := false;
    Start(o, readOnly, link.records);
    hide Sorted;
    assert link.wire + [] == link.wire;
    for slot := 0 to |o|
      invariant |results| == slot && Midway(o, readOnly, calls, fate, results, batch, selectorFailed)
      invariant link.wire == old(link.wire) + SentByCalls(calls)
      invariant link.records == NotedCalls(old(link.records), calls)
    {
      var entry := o[slot];
      if selectorFailed || readOnly(entry.fullname) {
        Block(o, readOnly, calls, fate, results, batch, selectorFailed);
        results := results + [(entry.fullname, Err(InvalidInput))];
        fate := fate + [Blocked];
        continue;
      }
      Enqueue(o, readOnly, calls, fate, results, batch);
      results := results + [(entry.fullname, Ok(()))];
      fate := fate + [Waiting];
      batch := batch + [slot];
      if IsSelector(entry) {
        results, calls, fate := SettleBatch(link, generation, o, readOnly, batch, results, calls, fate);
        selectorFailed := results[slot].1.Err?;
        batch := [];
      }
    }
    FlushAtTheEnd(o, readOnly, calls, fate, results, batch, selectorFailed);
    if !selectorFailed {
      results, calls, fate := SettleBatch(link, generation, o, readOnly, batch, results, calls, fate);
      Finished(o, readOnly, calls, fate, results);
    }
  }

  // ---------- the loop, step by step ----------

  /** Between two entries: no selector waits, and a failed one leaves nothing waiting. */
  ghost predicate Midway(o: seq<DumpEntry>, readOnly: string -> bool, calls: seq<Call>, fate: seq<Fate>,
                         results: Results, batch: seq<nat>, failed: bool)
  {
    && |fate| == |results| && Sorted(o)
    && Going(o, readOnly, calls, fate, results, batch)
    && (forall p :: 0 <= p < |batch| ==> batch[p] < |results| && !IsSelector(o[batch[p]]))
    && (failed <==> Stopped(o, fate, results, |results|))
    && (failed ==> batch == [])
  }

  /** What waits may be flushed: a selector only by itself, right after it was queued. */
  ghost predicate Ready(o: seq<DumpEntry>, readOnly: string -> bool, calls: seq<Call>, fate: seq<Fate>,
                        results: Results, batch: seq<nat>)
  {
    && |fate| == |results| && Sorted(o)
    && Going(o, readOnly, calls, fate, results, batch)
    && !Stopped(o, fate, results, |fate|)
    && forall p :: 0 <= p < |batch| ==>
         batch[p] < |results| && (IsSelector(o[batch[p]]) ==> |batch| == 1 && batch[p] == |results| - 1)
  }

  lemma Start(o: seq<DumpEntry>, readOnly: string -> bool, h: Records)
    requires Sorted(o)
    ensures Midway(o, readOnly, [], [], [], [], false) && SentByCalls([]) == [] && NotedCalls(h, []) == h
  {
  }

  lemma FlushAtTheEnd(o: seq<DumpEntry>, readOnly: string -> bool, calls: seq<Call>, fate: seq<Fate>,
                      results: Results, batch: seq<nat>, failed: bool)
    requires Midway(o, readOnly, calls, fate, results, batch, failed) && |results| == |o|
    ensures if failed then Restored(o, readOnly, calls, fate, results)
            else Ready(o, readOnly, calls, fate, results, batch)
  {
    hide Going, IsSelector;
  }

  lemma Finished(o: seq<DumpEntry>, readOnly: string -> bool, calls: seq<Call>, fate: seq<Fate>, results: Results)
    requires |results| == |o|
    ensures forall failed :: Midway(o, readOnly, calls, fate, results, [], failed) ==>
              Restored(o, readOnly, calls, fate, results)
  {
    hide Going, IsSelector;
  }

  lemma Block(o: seq<DumpEntry>, readOnly: string -> bool, calls: seq<Call>, fate: seq<Fate>,
              results: Results, batch: seq<nat>, failed: bool)
    requires Midway(o, readOnly, calls, fate, results, batch, failed) && |results| < |o|
    requires failed || readOnly(o[|results|].fullname)
    ensures Midway(o, readOnly, calls, fate + [Blocked],
                   results + [(o[|results|].fullname, Err(InvalidInput))], batch, failed)
  {
    hide Going, IsSelector, Stopped, Sorted;
    Grow(o, readOnly, calls, fate, results, batch, Blocked, (o[|fate|].fullname, Err(InvalidInput)));
  }

  lemma Enqueue(o: seq<DumpEntry>, readOnly: string -> bool, calls: seq<Call>, fate: seq<Fate>,
                results: Results, batch: seq<nat>)
    requires Midway(o, readOnly, calls, fate, results, batch, false) && |results| < |o|
    requires !readOnly(o[|results|].fullname)
    ensures var n := |results|;
            var results' := results + [(o[n].fullname, Ok(()))];
            if IsSelector(o[n]) then
              batch == [] && Ready(o, readOnly, calls, fate + [Waiting], results', batch + [n])
            else Midway(o, readOnly, calls, fate + [Waiting], results', batch + [n], false)
  {
    hide Going, IsSelector, Stopped;
    var n := |results|;
    Grow(o, readOnly, calls, fate, results, batch, Waiting, (o[n].fullname, Ok(())));
    if IsSelector(o[n]) && batch != [] {
      SelectorsFirst(o, batch[0], n);
    }
  }

  /** One more entry, blocked or waiting, changes nothing for those before it. */
  lemma Grow(o: seq<DumpEntry>, readOnly: string -> bool, calls: seq<Call>, fate: seq<Fate>,
             results: Results, batch: seq<nat>, f: Fate, r: (string, Result<()>))
    requires Going(o, readOnly, calls, fate, results, batch) && |fate| < |o|
    requires r.0 == o[|fate|].fullname
    requires match f
             case Blocked =>
               r.1 == Err(InvalidInput)
               && (readOnly(r.0) || Stopped(o, fate, results, |fate|))
             case Waiting => !readOnly(r.0) && !Stopped(o, fate, results, |fate|)
             case Written(_, _) => false
    ensures Going(o, readOnly, calls, fate + [f], results + [r],
                  if f.Waiting? then batch + [|fate|] else batch)
    ensures Stopped(o, fate + [f], results + [r], |fate| + 1) <==> Stopped(o, fate, results, |fate|)
  {
    hide Bulk, IsSelector;
    var n, fate', results' := |fate|, fate + [f], results + [r];
    assert forall t: nat :: Failing(o, fate', results', t) <==> Failing(o, fate, results, t);
    forall s: nat | s < n + 1 ensures FateOk(o, readOnly, calls, fate', results', s) {
      if s < n {
        assert FateOk(o, readOnly, calls, fate, results, s);
      }
    }
    forall c: nat | c < |calls| ensures CallOk(o, calls, fate', c) {
      assert CallOk(o, calls, fate, c);
    }
  }

  /** A call in its place behind the others. */
  ghost function Placed(calls: seq<Call>, fate: seq<Fate>, call: Call): Call {
    call.(from := Floor(calls), to := |fate|)
  }

  ghost function PosOf(batch: seq<nat>, s: nat): nat
    requires s in batch
  {
    var p: nat :| p < |batch| && batch[p] == s;
    p
  }

  ghost function Settled(fate: seq<Fate>, batch: seq<nat>, c: nat): (after: seq<Fate>)
    ensures |after| == |fate|
  {
    seq(|fate|, s requires 0 <= s < |fate| => if s in batch then Written(c, PosOf(batch, s)) else fate[s])
  }

  /** `call` has just written what waited in `batch`, and `results` shows how that went. */
  ghost predicate JustWrote(o: seq<DumpEntry>, readOnly: string -> bool, calls: seq<Call>, fate: seq<Fate>,
                            was: Results, results: Results, batch: seq<nat>, call: Call)
  {
    && Going(o, readOnly, calls, fate, was, batch) && !Stopped(o, fate, was, |fate|)
    && batch != [] && |results| == |was| && call.slots == batch && |call.results| == |batch|
    && (forall p :: 0 <= p < |batch| ==>
          batch[p] < |fate| && (IsSelector(o[batch[p]]) ==> |batch| == 1 && batch[p] == |fate| - 1))
    && Bulk(WritesOf(o, batch), call)
    && (forall s :: 0 <= s < |results| && s !in batch ==> results[s] == was[s])
    && (forall p :: 0 <= p < |batch| ==> results[batch[p]] == (was[batch[p]].0, call.results[p]))
  }

  lemma SettleCalls(o: seq<DumpEntry>, readOnly: string -> bool, calls: seq<Call>, fate: seq<Fate>,
                    was: Results, results: Results, batch: seq<nat>, call: Call)
    requires JustWrote(o, readOnly, calls, fate, was, results, batch, call)
    ensures var all := calls + [Placed(calls, fate, call)];
            forall c: nat :: c < |all| ==> CallOk(o, all, Settled(fate, batch, |calls|), c)
  {
    hide Bulk, IsSelector, Stopped, Stops, FateOk, CallOk;
    var all, fate' := calls + [Placed(calls, fate, call)], Settled(fate, batch, |calls|);
    forall c: nat | c < |all| ensures CallOk(o, all, fate', c) {
      if c < |calls| {
        CallUnmoved(o, calls, fate, batch, Placed(calls, fate, call), c);
      } else {
        NewCall(o, readOnly, calls, fate, was, results, batch, call);
      }
    }
  }

  /** Settling what waited does not touch the calls made before. */
  lemma CallUnmoved(o: seq<DumpEntry>, calls: seq<Call>, fate: seq<Fate>, batch: seq<nat>, next: Call, c: nat)
    requires c < |calls| && CallOk(o, calls, fate, c)
    requires forall s: nat :: s < |fate| && fate[s] == Waiting <==> s in batch
    ensures CallOk(o, calls + [next], Settled(fate, batch, |calls|), c)
  {
    hide Bulk, IsSelector;
    assert forall p :: 0 <= p < |calls[c].slots| ==> calls[c].slots[p] !in batch;
  }

  lemma NewCall(o: seq<DumpEntry>, readOnly: string -> bool, calls: seq<Call>, fate: seq<Fate>,
                was: Results, results: Results, batch: seq<nat>, call: Call)
    requires JustWrote(o, readOnly, calls, fate, was, results, batch, call)
    ensures CallOk(o, calls + [Placed(calls, fate, call)], Settled(fate, batch, |calls|), |calls|)
  {
    hide Wrote, LookedAt, IsSelector, Stopped, Stops, FateOk;
    var fate' := Settled(fate, batch, |calls|);
    forall p | 0 <= p < |batch| ensures fate'[batch[p]] == Written(|calls|, p) {
      assert batch[p] in batch && PosOf(batch, batch[p]) == p;
    }
  }

  lemma SettleFates(o: seq<DumpEntry>, readOnly: string -> bool, calls: seq<Call>, fate: seq<Fate>,
                    was: Results, results: Results, batch: seq<nat>, call: Call)
    requires JustWrote(o, readOnly, calls, fate, was, results, batch, call)
    ensures var all, fate' := calls + [Placed(calls, fate, call)], Settled(fate, batch, |calls|);
            forall s: nat :: s < |fate| ==> FateOk(o, readOnly, all, fate', results, s)
  {
    hide Bulk, IsSelector, CallOk, Stops;
    var all, fate' := calls + [Placed(calls, fate, call)], Settled(fate, batch, |calls|);
    forall s: nat | s < |fate| ensures FateOk(o, readOnly, all, fate', results, s) {
      assert FateOk(o, readOnly, calls, fate, was, s);
      assert !Stopped(o, fate, was, s);
      if s in batch {
        assert results[s] == (was[s].0, call.results[PosOf(batch, s)]);
      }
    }
  }

  lemma SettleStops(o: seq<DumpEntry>, readOnly: string -> bool, calls: seq<Call>, fate: seq<Fate>,
                    was: Results, results: Results, batch: seq<nat>, call: Call)
    requires JustWrote(o, readOnly, calls, fate, was, results, batch, call)
    ensures var all, fate' := calls + [Placed(calls, fate, call)], Settled(fate, batch, |calls|);
            && Stops(o, all, fate', results)
            && (Stopped(o, fate', results, |fate|) <==>
                  IsSelector(o[batch[0]]) && call.results[0].Err?)
  {
    hide Bulk, IsSelector, CallOk, FateOk;
    var n, fate' := |fate|, Settled(fate, batch, |calls|);
    assert forall t: nat :: !Failing(o, fate, was, t);
    forall t: nat | Failing(o, fate', results, t)
      ensures batch == [t] && t == n - 1
    {
      assert t !in batch ==> Failing(o, fate, was, t);
    }
    if IsSelector(o[batch[0]]) {
      assert batch[0] in batch && PosOf(batch, batch[0]) == 0;
      assert Failing(o, fate', results, batch[0]) <==> call.results[0].Err?;
    }
  }

  /** A flush settles what waited. */
  lemma Settle(o: seq<DumpEntry>, readOnly: string -> bool, calls: seq<Call>, fate: seq<Fate>,
               was: Results, results: Results, batch: seq<nat>, call: Call)
    requires JustWrote(o, readOnly, calls, fate, was, results, batch, call)
    ensures var fate' := Settled(fate, batch, |calls|);
            && Going(o, readOnly, calls + [Placed(calls, fate, call)], fate', results, [])
            && (Stopped(o, fate', results, |fate|) <==>
                  IsSelector(o[batch[0]]) && call.results[0].Err?)
  {
    SettleCalls(o, readOnly, calls, fate, was, results, batch, call);
    SettleFates(o, readOnly, calls, fate, was, results, batch, call);
    SettleStops(o, readOnly, calls, fate, was, results, batch, call);
    hide Bulk, IsSelector, CallOk, FateOk, Stops, Stopped;
  }

  lemma SentPush(calls: seq<Call>, call: Call)
    ensures forall wire :: wire + SentByCalls(calls + [call]) == (wire + SentByCalls(calls)) + SentBy(call.batches)
    ensures forall h :: NotedCalls(h, calls + [call]) == Noted(NotedCalls(h, calls), call.looks, call.batches)
  {
    assert (calls + [call])[..|calls|] == calls;
  }

  lemma NoItemsNoBatch(accepted: seq<bool>, batches: seq<Batch>, results: seq<Result<()>>)
    requires Covers([], accepted, batches, results)
    ensures batches == []
  {
    assert |batches| == 0 || !CoversOne([], accepted, batches, results, 0);
  }

  lemma NothingToFlush(o: seq<DumpEntry>, call: Call, was: Results, results: Results, h: Records)
    requires call.slots == [] && |was| == |results|
    requires Bulk(WritesOf(o, call.slots), call)
    requires forall s :: 0 <= s < |results| ==> results[s] == was[s]
    ensures SentBy(call.batches) == [] && Noted(h, call.looks, call.batches) == h && results == was
  {
    assert WritesOf(o, call.slots) == [];
    NoItemsNoBatch(call.accepted, call.batches, call.results);
    NothingWritten([], h);
    assert results == was;
  }

  // ---------- what the results mean ----------

  /** After an attempted selector failed, every later result is an error and no later entry was
      part of any write; the selector itself was written alone. */
  lemma NothingAfterFailedSelector(o: seq<DumpEntry>, readOnly: string -> bool, calls: seq<Call>,
                                   fate: seq<Fate>, results: Results, t: nat)
    requires Restored(o, readOnly, calls, fate, results) && Failing(o, fate, results, t)
    ensures forall s: nat :: t < s < |o| ==> results[s].1 == Err(InvalidInput)
    ensures forall c, p :: 0 <= c < |calls| && 0 <= p < |calls[c].slots| ==> calls[c].slots[p] <= t
    ensures calls != [] && calls[|calls| - 1].slots == [t]
  {
    hide Bulk, IsSelector;
    forall s: nat | t < s < |o| ensures results[s].1 == Err(InvalidInput) {
      assert FateOk(o, readOnly, calls, fate, results, s);
    }
    assert FateOk(o, readOnly, calls, fate, results, t);
    assert CallOk(o, calls, fate, |calls| - 1);
    forall c, p | 0 <= c < |calls| && 0 <= p < |calls[c].slots| ensures calls[c].slots[p] <= t {
      assert CallOk(o, calls, fate, c);
    }
  }

  /** An entry fails without being attempted only if it is read-only or a selector before it
      failed. */
  lemma BlockedFor(o: seq<DumpEntry>, readOnly: string -> bool, calls: seq<Call>,
                   fate: seq<Fate>, results: Results, s: nat)
    requires Restored(o, readOnly, calls, fate, results) && s < |o|
    ensures results[s].0 == o[s].fullname
    ensures !fate[s].Written? <==> readOnly(o[s].fullname) || Stopped(o, fate, results, s)
  {
    hide Bulk, IsSelector, CallOk;
    assert FateOk(o, readOnly, calls, fate, results, s);
    if Stopped(o, fate, results, s) {
      var t: nat :| t < s && Failing(o, fate, results, t);
      assert fate[s] == Blocked;
    }
  }

  function AllSlots(calls: seq<Call>): seq<nat> {
    if calls == [] then [] else AllSlots(calls[..|calls| - 1]) + calls[|calls| - 1].slots
  }

  ghost predicate CallsOk(o: seq<DumpEntry>, calls: seq<Call>, fate: seq<Fate>) {
    forall c: nat :: c < |calls| ==> CallOk(o, calls, fate, c)
  }

  lemma FewerCalls(o: seq<DumpEntry>, calls: seq<Call>, fate: seq<Fate>)
    requires CallsOk(o, calls, fate) && calls != []
    ensures CallsOk(o, calls[..|calls| - 1], fate)
  {
    hide Bulk, IsSelector;
    var fewer := calls[..|calls| - 1];
    forall c: nat | c < |fewer| ensures CallOk(o, fewer, fate, c) {
      assert CallOk(o, calls, fate, c);
    }
  }

  /** Slots in strictly rising order, from `from` up to but not including `to`, all below `n`. */
  predicate Rising(slots: seq<nat>, from: nat, to: nat, n: nat) {
    && (forall p :: 0 <= p < |slots| ==> from <= slots[p] < to && slots[p] < n)
    && forall p, q :: 0 <= p < q < |slots| ==> slots[p] < slots[q]
  }

  /** Over all calls, the entries are taken in the applied order, each at most once. */
  lemma {:induction false} SlotsInOrder(o: seq<DumpEntry>, calls: seq<Call>, fate: seq<Fate>)
    requires CallsOk(o, calls, fate)
    ensures var slots := AllSlots(calls);
            && Rising(slots, 0, Floor(calls), |o|)
            && (forall c, p :: 0 <= c < |calls| && 0 <= p < |calls[c].slots| ==> calls[c].slots[p] in slots)
            && (forall s <- slots :: s < |fate| && fate[s].Written?)
    decreases |calls|
  {
    hide Bulk, IsSelector;
    if calls != [] {
      var last := |calls| - 1;
      FewerCalls(o, calls, fate);
      var before, own := AllSlots(calls[..last]), calls[last].slots;
      SlotsInOrder(o, calls[..last], fate);
      assert CallOk(o, calls, fate, last);
      assert Floor(calls[..last]) == calls[last].from;
      RisingJoined(before, own, calls[last].from, calls[last].to, |o|);
      forall s | s in before + own ensures s < |fate| && fate[s].Written? {
        if s !in before {
          var p :| 0 <= p < |own| && own[p] == s;
        }
      }
      forall c, p | 0 <= c < |calls| && 0 <= p < |calls[c].slots| ensures calls[c].slots[p] in before + own {
        if c < last {
          assert calls[..last][c] == calls[c];
        }
      }
    }
  }

  lemma RisingJoined(before: seq<nat>, own: seq<nat>, from: nat, to: nat, n: nat)
    requires Rising(before, 0, from, n) && Rising(own, from, to, n) && own != []
    ensures Rising(before + own, 0, to, n)
  {
    assert own[0] < to;
  }

  lemma NoWrites(o: seq<DumpEntry>)
    ensures WritesOf(o, []) == []
  {
  }

  lemma OneWrite(o: seq<DumpEntry>, s: nat)
    requires s < |o|
    ensures WritesOf(o, [s]) == [WriteOf(o[s])]
  {
  }

  lemma NoSets()
    ensures ClientMessages.StreamBytes(Sets([])) == []
  {
  }

  lemma {:induction false} SetsConcat(a: seq<Write>, b: seq<Write>)
    ensures ClientMessages.StreamBytes(Sets(a + b))
            == ClientMessages.StreamBytes(Sets(a)) + ClientMessages.StreamBytes(Sets(b))
    decreases |b|
  {
    hide ClientMessages.StreamBytes, Sets, ClientMessages.MessageBytes;
    if b == [] {
      assert a + b == a;
      NoSets();
    } else {
      var rest, w := b[..|b| - 1], b[|b| - 1];
      assert a + b == (a + rest) + [w] && b == rest + [w];
      SetsConcat(a, rest);
      SetsPush(a + rest, w);
      SetsPush(rest, w);
      var own := if Fits(w) then ClientMessages.MessageBytes(SetMessage(w)) else [];
      Associate(ClientMessages.StreamBytes(Sets(a)), ClientMessages.StreamBytes(Sets(rest)), own);
    }
  }

  lemma Associate(a: seq<Byte>, b: seq<Byte>, c: seq<Byte>)
    ensures (a + b) + c == a + (b + c)
  {
  }

  /** Every write that can be encoded succeeded. */
  predicate AllWell(o: seq<DumpEntry>, call: Call) {
    forall p :: 0 <= p < |call.slots| && p < |call.results| && call.slots[p] < |o| && Fits(WriteOf(o[call.slots[p]])) ==>
      call.results[p].Ok?
  }

  /** When every attempted write that can be encoded succeeded, the transport received exactly the separate set
      messages of the attempted entries, in the applied order. */
  lemma {:induction false} RestoreIsOneAtATime(o: seq<DumpEntry>, calls: seq<Call>, fate: seq<Fate>)
    requires CallsOk(o, calls, fate)
    requires forall c :: 0 <= c < |calls| ==> AllWell(o, calls[c])
    ensures forall p :: 0 <= p < |AllSlots(calls)| ==> AllSlots(calls)[p] < |o|
    ensures SentByCalls(calls) == ClientMessages.StreamBytes(Sets(WritesOf(o, AllSlots(calls))))
    decreases |calls|
  {
    hide Bulk, CallOk, SentBy, ClientMessages.StreamBytes, Sets, WritesOf;
    SlotsInOrder(o, calls, fate);
    if calls == [] {
      NoWrites(o);
      NoSets();
    } else {
      var last := |calls| - 1;
      var call, slots := calls[last], AllSlots(calls[..last]);
      FewerCalls(o, calls, fate);
      RestoreIsOneAtATime(o, calls[..last], fate);
      CallWrote(o, calls, fate, last);
      WroteAll(o, call);
      SetsConcat(WritesOf(o, slots), WritesOf(o, call.slots));
      WritesConcat(o, slots, call.slots);
    }
  }

  lemma WritesConcat(o: seq<DumpEntry>, a: seq<nat>, b: seq<nat>)
    requires forall p :: 0 <= p < |a| ==> a[p] < |o|
    requires forall p :: 0 <= p < |b| ==> b[p] < |o|
    ensures forall p :: 0 <= p < |a + b| ==> (a + b)[p] < |o|
    ensures WritesOf(o, a + b) == WritesOf(o, a) + WritesOf(o, b)
  {
  }

  lemma CallWrote(o: seq<DumpEntry>, calls: seq<Call>, fate: seq<Fate>, c: nat)
    requires CallsOk(o, calls, fate) && c < |calls|
    ensures var call := calls[c];
            && (forall p :: 0 <= p < |call.slots| ==> call.slots[p] < |o|)
            && Bulk(WritesOf(o, call.slots), call)
  {
    hide Bulk, IsSelector;
    assert CallOk(o, calls, fate, c);
  }

  lemma WroteAll(o: seq<DumpEntry>, call: Call)
    requires forall p :: 0 <= p < |call.slots| ==> call.slots[p] < |o|
    requires Bulk(WritesOf(o, call.slots), call) && AllWell(o, call)
    ensures SentBy(call.batches) == ClientMessages.StreamBytes(Sets(WritesOf(o, call.slots)))
  {
    hide Fits, Covers, Refusals, Messages, SentBy, Sets;
    BulkIsOneAtATime(WritesOf(o, call.slots), call.accepted, call.batches, call.results);
  }

  // ---------- a restore on a healthy link ----------

  /** An entry that is to be applied, whose path is a selector, and that cannot be encoded. */
  predicate Stumbles(o: seq<DumpEntry>, readOnly: string -> bool, t: nat)
    requires t < |o|
  {
    IsSelector(o[t]) && !readOnly(o[t].fullname) && !Fits(WriteOf(o[t]))
  }

  /** An entry is up for writing: it is not read-only, and every selector before it
      that is to be applied can be encoded. */
  ghost predicate UpForWriting(o: seq<DumpEntry>, readOnly: string -> bool, s: nat)
    requires s < |o|
  {
    !readOnly(o[s].fullname) && forall t: nat :: t < s ==> !Stumbles(o, readOnly, t)
  }

  /** The writes that are up among the first `n` entries. */
  ghost function WritesUp(o: seq<DumpEntry>, readOnly: string -> bool, n: nat): seq<Write>
    requires n <= |o|
  {
    if n == 0 then []
    else
      WritesUp(o, readOnly, n - 1)
      + (if UpForWriting(o, readOnly, n - 1) then [WriteOf(o[n - 1])] else [])
  }

  lemma {:induction false} CleanCalls(h: Records, calls: seq<Call>)
    requires Clean(NotedCalls(h, calls))
    ensures forall call <- calls :: Clean(Noted(NO_RECORDS, call.looks, call.batches))
    decreases |calls|
  {
    hide Clean, Noted;
    if calls != [] {
      var fewer, last := calls[..|calls| - 1], calls[|calls| - 1];
      CleanParts(NotedCalls(h, fewer), last.looks, last.batches);
      CleanCalls(h, fewer);
      assert calls == fewer + [last];
    }
  }

  /** An attempted entry of a restore without bad records succeeds exactly if it can be encoded. */
  lemma CleanResult(o: seq<DumpEntry>, readOnly: string -> bool, calls: seq<Call>, fate: seq<Fate>,
                    results: Results, s: nat)
    requires Restored(o, readOnly, calls, fate, results) && s < |o| && fate[s].Written?
    requires Clean(NotedCalls(NO_RECORDS, calls))
    ensures results[s].1.Ok? == Fits(WriteOf(o[s]))
  {
    hide Clean, NotedCalls, IsSelector, Wrote, LookedAt, Fits, Sorted, Stops;
    assert FateOk(o, readOnly, calls, fate, results, s);
    var c, p := fate[s].call, fate[s].pos;
    var call := calls[c];
    assert CallOk(o, calls, fate, c);
    CleanCalls(NO_RECORDS, calls);
    assert call in calls;
    HealthyBulk(WritesOf(o, call.slots), call.looks, call.accepted, call.batches, call.results);
    assert WritesOf(o, call.slots)[p] == WriteOf(o[s]);
  }

  /** The entries attempted by a restore without bad records are those that are up. */
  lemma CleanAttempts(o: seq<DumpEntry>, readOnly: string -> bool, calls: seq<Call>, fate: seq<Fate>,
                      results: Results, s: nat)
    requires Restored(o, readOnly, calls, fate, results) && s < |o|
    requires Clean(NotedCalls(NO_RECORDS, calls))
    ensures fate[s].Written? <==> UpForWriting(o, readOnly, s)
  {
    hide Clean, NotedCalls, IsSelector, CallOk, FateOk, Stops, Fits;
    BlockedFor(o, readOnly, calls, fate, results, s);
    forall t: nat | t < s && fate[t].Written? ensures results[t].1.Ok? == Fits(WriteOf(o[t])) {
      CleanResult(o, readOnly, calls, fate, results, t);
    }
    forall t: nat | t < s && Stumbles(o, readOnly, t) ensures Stopped(o, fate, results, s) {
      BlockedFor(o, readOnly, calls, fate, results, t);
      if fate[t].Written? {
        assert Failing(o, fate, results, t);
      }
    }
    if t: nat :| t < s && Failing(o, fate, results, t) {
      BlockedFor(o, readOnly, calls, fate, results, t);
      assert Stumbles(o, readOnly, t);
    }
  }

  lemma LastSlot(slots: seq<nat>, n: nat, m: nat)
    requires n > 0 && Rising(slots, 0, n, m)
    ensures if n - 1 in slots then
              var fewer := slots[..|slots| - 1];
              && slots == fewer + [n - 1] && Rising(fewer, 0, n - 1, m)
              && forall s: nat :: s < n - 1 ==> (s in fewer <==> s in slots)
            else Rising(slots, 0, n - 1, m)
  {
    if p :| 0 <= p < |slots| && slots[p] == n - 1 {
      var last := |slots| - 1;
      assert slots[p] <= slots[last] < n;
      var fewer := slots[..p];
      forall s: nat | s < n - 1 ensures s in fewer <==> s in slots {
        assert slots == fewer + [n - 1];
      }
    }
  }

  /** Slots in rising order that are exactly those up for writing hold the writes that are up. */
  lemma {:induction false} SlotsAreUp(o: seq<DumpEntry>, readOnly: string -> bool, slots: seq<nat>, n: nat)
    requires n <= |o| && Rising(slots, 0, n, |o|)
    requires forall s: nat :: s < n ==> (s in slots <==> UpForWriting(o, readOnly, s))
    ensures WritesOf(o, slots) == WritesUp(o, readOnly, n)
  {
    hide UpForWriting, WritesOf;
    if n == 0 {
      NoWrites(o);
    } else {
      LastSlot(slots, n, |o|);
      if UpForWriting(o, readOnly, n - 1) {
        var fewer := slots[..|slots| - 1];
        SlotsAreUp(o, readOnly, fewer, n - 1);
        WritesConcat(o, fewer, [n - 1]);
        OneWrite(o, n - 1);
      } else {
        SlotsAreUp(o, readOnly, slots, n - 1);
        assert WritesUp(o, readOnly, n) == WritesUp(o, readOnly, n - 1);
      }
    }
  }

  /** When nothing bad was recorded, an entry succeeds exactly if it can be encoded, it is not
      read-only, and no selector to be applied before it cannot be encoded; and the transport
      received exactly the separate set messages of those entries, in the applied order. */
  lemma RestoreHealthy(o: seq<DumpEntry>, readOnly: string -> bool, calls: seq<Call>, fate: seq<Fate>,
                       results: Results)
    requires Restored(o, readOnly, calls, fate, results)
    requires Clean(NotedCalls(NO_RECORDS, calls))
    ensures forall s: nat :: s < |o| ==>
              (results[s].1.Ok? <==> UpForWriting(o, readOnly, s) && Fits(WriteOf(o[s])))
    ensures SentByCalls(calls) == ClientMessages.StreamBytes(Sets(WritesUp(o, readOnly, |o|)))
  {
    hide Clean, NotedCalls, IsSelector, UpForWriting, Fits, CallOk, Bulk, Stops, ClientMessages.StreamBytes, Sets, WritesOf;
    forall s: nat | s < |o|
      ensures results[s].1.Ok? <==> UpForWriting(o, readOnly, s) && Fits(WriteOf(o[s]))
      ensures fate[s].Written? <==> UpForWriting(o, readOnly, s)
    {
      CleanAttempts(o, readOnly, calls, fate, results, s);
      assert FateOk(o, readOnly, calls, fate, results, s);
      if fate[s].Written? {
        CleanResult(o, readOnly, calls, fate, results, s);
      }
    }
    SlotsInOrder(o, calls, fate);
    var slots := AllSlots(calls);
    forall s: nat ensures s < |o| ==> (s in slots <==> UpForWriting(o, readOnly, s)) {
      if s < |o| && fate[s].Written? {
        WrittenInSlots(o, readOnly, calls, fate, results, s);
      }
    }
    SlotsAreUp(o, readOnly, slots, |o|);
    forall c | 0 <= c < |calls| ensures AllWell(o, calls[c]) {
      CleanCall(o, readOnly, calls, fate, results, c);
    }
    RestoreIsOneAtATime(o, calls, fate);
  }

  lemma WrittenInSlots(o: seq<DumpEntry>, readOnly: string -> bool, calls: seq<Call>, fate: seq<Fate>,
                       results: Results, s: nat)
    requires Restored(o, readOnly, calls, fate, results) && s < |o| && fate[s].Written?
    ensures s in AllSlots(calls)
  {
    hide CallOk, IsSelector, Stops;
    assert FateOk(o, readOnly, calls, fate, results, s);
    SlotsInOrder(o, calls, fate);
  }

  lemma CleanCall(o: seq<DumpEntry>, readOnly: string -> bool, calls: seq<Call>, fate: seq<Fate>,
                  results: Results, c: nat)
    requires Restored(o, readOnly, calls, fate, results) && c < |calls|
    requires Clean(NotedCalls(NO_RECORDS, calls))
    ensures AllWell(o, calls[c])
  {
    hide Clean, NotedCalls, IsSelector, Wrote, LookedAt, Fits, Stops, FateOk;
    var call := calls[c];
    assert CallOk(o, calls, fate, c);
    CleanCalls(NO_RECORDS, calls);
    assert call in calls;
    HealthyBulk(WritesOf(o, call.slots), call.looks, call.accepted, call.batches, call.results);
    assert forall p :: 0 <= p < |call.slots| ==> WritesOf(o, call.slots)[p] == WriteOf(o[call.slots[p]]);
  }
}
