/** Looking names and ids up in the property map, in place. */
module PropIndex {
  import opened Basics
  import opened Sorting
  import opened PropMap

  datatype Index = Index(entries: seq<Byte>, offsets: seq<Byte>, byId: seq<Byte>, hash: seq<Byte>, count: nat)

  function BeAt32(bytes: seq<Byte>, at: nat): nat
    requires at + 4 <= |bytes|
  {
    FromBe32(bytes[at..at + 4])
  }

  function BeAt16(bytes: seq<Byte>, at: nat): nat
    requires at + 2 <= |bytes|
  {
    FromBe16(bytes[at..at + 2])
  }

  /** `data` is laid out as `ix`: a header, and every part of the length the header implies. */
  ghost predicate Holds(data: seq<Byte>, ix: Index) {
    && ix.count <= EMPTY && |ix.entries| <= EMPTY
    && |ix.offsets| == |ix.byId| == 4 * ix.count && |ix.hash| == 4 * HashSlots(ix.count)
    && data == MAGIC + Be32(ix.count) + Be32(|ix.entries|) + ix.entries + ix.offsets + ix.byId + ix.hash
  }

  /** Read the header of a blob: the one index it is laid out as, and none for any other bytes. */
  method New(data: seq<Byte>) returns (ix: Option<Index>)
    ensures ix.Some? ==> Holds(data, ix.value)
    ensures forall i :: Holds(data, i) ==> ix == Some(i)
  {
    forall i | Holds(data, i)
      ensures HeaderMatches(data)
      ensures i == Split(data)
    {
      HoldsParts(data, i);
    }
    if |data| < HEADER_LEN || data[..4] != MAGIC {
      return None;
    }
    var count := BeAt32(data, 4);
    var entriesLen := BeAt32(data, 8);
    if |data| != HEADER_LEN + entriesLen + count * 8 + HashSlots(count) * 4 {
      return None;
    }
    var body := data[HEADER_LEN..];
    var entries, tables := body[..entriesLen], body[entriesLen..];
    var offsets, more := tables[..count * 4], tables[count * 4..];
    ix := Some(Index(entries, offsets, more[..count * 4], more[count * 4..], count));
    SplitHolds(data);
  }

  predicate HeaderMatches(data: seq<Byte>) {
    && |data| >= HEADER_LEN && data[..4] == MAGIC
    && |data| == HEADER_LEN + BeAt32(data, 8) + BeAt32(data, 4) * 8 + HashSlots(BeAt32(data, 4)) * 4
  }

  /** The parts the header marks off. */
  function Split(data: seq<Byte>): Index {
    if !HeaderMatches(data) then Index([], [], [], [], 0)
    else
      var count := BeAt32(data, 4);
      var tables := data[HEADER_LEN..][BeAt32(data, 8)..];
      Index(data[HEADER_LEN..][..BeAt32(data, 8)], tables[..count * 4],
            tables[count * 4..][..count * 4], tables[count * 4..][count * 4..], count)
  }

  lemma SplitHolds(data: seq<Byte>)
    requires HeaderMatches(data)
    ensures Holds(data, Split(data))
  {
    hide Be32, FromBe32, HashSlots;
    var ix := Split(data);
    FromBe32RoundTrip(data[4..8]);
    FromBe32RoundTrip(data[8..12]);
    Rejoin(data, MAGIC, Be32(ix.count), Be32(|ix.entries|), ix.entries, ix.offsets, ix.byId, ix.hash);
  }

  /** Cutting apart and joining again. */
  lemma Rejoin(data: seq<Byte>, m: seq<Byte>, x: seq<Byte>, y: seq<Byte>, raw: seq<Byte>,
               a: seq<Byte>, b: seq<Byte>, c: seq<Byte>)
    requires |data| >= 12 + |raw| + |a| + |b|
    requires data[..4] == m && data[4..8] == x && data[8..12] == y
    requires data[12..][..|raw|] == raw
    requires data[12..][|raw|..][..|a|] == a
    requires data[12..][|raw|..][|a|..][..|b|] == b
    requires data[12..][|raw|..][|a|..][|b|..] == c
    ensures data == m + x + y + raw + a + b + c
  {
    var body := data[12..];
    var tables := body[|raw|..];
    var more := tables[|a|..];
    assert more == b + c;
    assert tables == a + more;
    assert body == raw + tables;
    assert data[..8] == m + x;
    assert data[..12] == data[..8] + y;
    assert data == data[..12] + body;
    Regroup(m + x + y, raw, a, b, c);
  }

  lemma Regroup(m: seq<Byte>, x: seq<Byte>, a: seq<Byte>, b: seq<Byte>, c: seq<Byte>)
    ensures m + (x + (a + (b + c))) == m + x + a + b + c
  {
  }

  lemma HoldsParts(data: seq<Byte>, ix: Index)
    requires Holds(data, ix)
    ensures HeaderMatches(data) && ix == Split(data)
  {
    Be32RoundTrip(ix.count);
    Be32RoundTrip(|ix.entries|);
    hide Be32, FromBe32, HashSlots;
    PartsOf(MAGIC, Be32(ix.count), Be32(|ix.entries|), ix.entries, ix.offsets, ix.byId, ix.hash);
  }

  /** The index a blob holds. */
  function IndexOf(raw: seq<Byte>, t: Tables): Index
    requires Small(t)
  {
    Index(raw, TableBytes(OffsetsOf(t.rows)), TableBytes(t.byId), TableBytes(t.hash), |t.rows|)
  }

  lemma {:induction false} TableAt(table: seq<nat>, k: nat)
    requires k < |table| && forall k :: 0 <= k < |table| ==> table[k] <= EMPTY
    ensures |TableBytes(table)| == 4 * |table|
    ensures TableBytes(table)[4 * k..4 * k + 4] == Be32(table[k])
    decreases |table|
  {
    hide Be32;
    var last := |table| - 1;
    TableLength(table[..last]);
    if k < last {
      TableAt(table[..last], k);
    }
  }

  lemma {:induction false} TableLength(table: seq<nat>)
    requires forall k :: 0 <= k < |table| ==> table[k] <= EMPTY
    ensures |TableBytes(table)| == 4 * |table|
    decreases |table|
  {
    hide Be32;
    if table != [] {
      TableLength(table[..|table| - 1]);
    }
  }

  /** A built blob is laid out as its index. */
  lemma BlobHolds(raw: seq<Byte>, t: Tables)
    requires |raw| <= EMPTY && Small(t) && |t.byId| == |t.rows| && |t.hash| == HashSlots(|t.rows|)
    ensures Holds(Blob(raw, t), IndexOf(raw, t))
  {
    TableLength(OffsetsOf(t.rows));
    TableLength(t.byId);
    TableLength(t.hash);
  }

  lemma PartsOf(m: seq<Byte>, x: seq<Byte>, y: seq<Byte>, raw: seq<Byte>, a: seq<Byte>, b: seq<Byte>, c: seq<Byte>)
    requires |m| == |x| == |y| == 4
    ensures var data := m + x + y + raw + a + b + c;
            && data[..4] == m && data[4..8] == x && data[8..12] == y
            && data[12..] == raw + a + b + c
    ensures var body := raw + a + b + c;
            && body[..|raw|] == raw && body[|raw|..] == a + b + c
    ensures (a + b + c)[..|a|] == a && (a + b + c)[|a|..] == b + c
    ensures (b + c)[..|b|] == b && (b + c)[|b|..] == c
  {
  }

  // ---------- an index at work ----------

  /** `ix` is the index of `records`, with tables `t`. */
  ghost predicate Serves(ix: Index, records: seq<Record>, t: Tables) {
    && AllWellFormed(records) && Distinct(records) && |RawOf(records)| <= EMPTY
    && TablesOf(records, t) && Small(t) && ix == IndexOf(RawOf(records), t)
  }

  /** The record behind an ordinal. */
  ghost predicate IsAt(records: seq<Record>, t: Tables, o: nat, r: Record) {
    o < |t.rows| && r in records && WellFormed(r) && t.rows[o].name == r.name && t.rows[o].id == IdOf(r)
    && EntryAtRow(records, t, o, r)
  }

  ghost predicate EntryAtRow(records: seq<Record>, t: Tables, o: nat, r: Record)
    requires o < |t.rows|
  {
    AllWellFormed(records) && EntryAt(RawOf(records), t.rows[o].offset, r)
  }

  lemma RecordAt(records: seq<Record>, t: Tables, o: nat) returns (r: Record)
    requires AllWellFormed(records) && TablesOf(records, t) && o < |records|
    ensures IsAt(records, t, o, r)
  {
    hide HashOk, RawOf, EntryBytes, HashSlots;
    SortedRows(records, t.rows);
    assert t.rows[o] in multiset(t.rows);
    assert t.rows[o] in multiset(RowsOf(records));
    var k :| 0 <= k < |records| && RowsOf(records)[k] == t.rows[o];
    EntriesLieInOrder(records, k);
    r := records[k];
  }

  lemma OrdinalOf(records: seq<Record>, t: Tables, r: Record) returns (o: nat)
    requires AllWellFormed(records) && TablesOf(records, t) && r in records
    ensures o < |t.rows| && t.rows[o].name == r.name
  {
    hide HashOk, RawOf, EntryBytes, HashSlots;
    SortedRows(records, t.rows);
    var k :| 0 <= k < |records| && records[k] == r;
    assert RowsOf(records)[k] in multiset(RowsOf(records));
    assert RowsOf(records)[k] in multiset(t.rows);
    o :| 0 <= o < |t.rows| && t.rows[o] == RowsOf(records)[k];
  }

  /** Name and definition of the entry at an ordinal. */
  function Raw(ix: Index, ordinal: nat): (r: Option<(seq<Byte>, seq<Byte>)>)
  {
    if ordinal * 4 + 4 > |ix.offsets| then None
    else
      var i := BeAt32(ix.offsets, ordinal * 4) + 1;
      if i + 2 > |ix.entries| then None
      else
        var nameLen := BeAt16(ix.entries, i);
        if i + 2 + nameLen + 2 > |ix.entries| then None
        else
          var defLen := BeAt16(ix.entries, i + 2 + nameLen);
          if i + 4 + nameLen + defLen > |ix.entries| then None
          else Some((ix.entries[i + 2..i + 2 + nameLen],
                     ix.entries[i + 4 + nameLen..i + 4 + nameLen + defLen]))
  }

  lemma RawIsEntry(ix: Index, records: seq<Record>, t: Tables, o: nat, r: Record)
    requires Serves(ix, records, t) && IsAt(records, t, o, r)
    ensures Raw(ix, o) == Some((r.name, r.def))
  {
    hide HashOk, RawOf, TablesOf, Distinct, IdOf;
    var offsets := OffsetsOf(t.rows);
    TableAt(offsets, o);
    Be32RoundTrip(offsets[o]);
    EntryFields(RawOf(records), t.rows[o].offset, r);
    hide EntryAt, EntryBytes, Be32, FromBe32, FromBe16, TableBytes, AllWellFormed, Small;
    assert BeAt32(ix.offsets, o * 4) == t.rows[o].offset;
    var i := t.rows[o].offset + 1;
    assert ix.entries == RawOf(records);
    assert BeAt16(ix.entries, i) == |r.name|;
    assert BeAt16(ix.entries, i + 2 + |r.name|) == |r.def|;
  }

  function IdAt(ix: Index, ordinal: nat): Option<Int32> {
    var raw := Raw(ix, ordinal);
    if raw.Some? && |raw.value.1| >= 8 then Some(FromBeI32(raw.value.1[4..8])) else None
  }

  lemma IdAtIsId(ix: Index, records: seq<Record>, t: Tables, o: nat)
    requires Serves(ix, records, t) && o < |t.rows|
    ensures IdAt(ix, o) == Some(t.rows[o].id)
  {
    var r := RecordAt(records, t, o);
    RawIsEntry(ix, records, t, o, r);
  }

  // ---------- by name ----------

  lemma CellAt(ix: Index, records: seq<Record>, t: Tables, slot: nat)
    requires Serves(ix, records, t) && slot < |t.hash|
    ensures |ix.hash| == 4 * |t.hash| && BeAt32(ix.hash, slot * 4) == t.hash[slot]
    ensures t.hash[slot] == EMPTY || t.hash[slot] < |t.rows|
  {
    hide RawOf, AllWellFormed, Used;
    TableAt(t.hash, slot);
    hide TableBytes, Be32, FromBe32;
    Be32RoundTrip(t.hash[slot]);
  }

  /** The names passed on the way to a slot are all different from `name`. */
  ghost predicate PassedOver(t: Tables, name: seq<Byte>, home: nat, slot: nat)
    requires home < |t.hash| && slot < |t.hash|
  {
    forall c :: 0 <= c < |t.hash| && Steps(home, c, |t.hash|) < Steps(home, slot, |t.hash|) ==>
      t.hash[c] < |t.rows| && t.rows[t.hash[c]].name != name
  }

  /** Find a name: its place in name order. Probing always comes to an end. */
  method Find(ix: Index, name: seq<Byte>, ghost records: seq<Record>, ghost t: Tables) returns (r: Option<nat>)
    requires Serves(ix, records, t)
    ensures r.Some? ==> r.value < |t.rows| && t.rows[r.value].name == name
    ensures r.None? ==> forall x <- records :: x.name != name
  {
    hide Serves, HashSlots, Steps, NameHash, Used, TakenUpTo, PassedOver, IsPowerOfTwo, After, And;
    var slots := |ix.hash| / 4;
    HashFacts(ix, records, t);
    if slots == 0 {
      return None;
    }
    var slot: nat := Home(name, slots);
    ghost var home := slot;
    Begin(t, name, home);
    while true
      invariant slot < slots && TakenUpTo(t.hash, home, slot) && PassedOver(t, name, home, slot)
      decreases slots - Steps(home, slot, slots)
    {
      CellAt(ix, records, t, slot);
      var ordinal := BeAt32(ix.hash, slot * 4);
      if ordinal == EMPTY {
        NotPresent(ix, records, t, name, slot);
        return None;
      }
      ghost var rec := RecordAtOf(ix, records, t, ordinal);
      if Raw(ix, ordinal).value.0 == name {
        return Some(ordinal);
      }
      ProbeNext(t.hash, home, slot);
      PassOne(t, name, home, slot);
      StepsBound(home, After(slot, slots), slots);
      slot := After(slot, slots);
    }
  }

  lemma RecordAtOf(ix: Index, records: seq<Record>, t: Tables, o: nat) returns (r: Record)
    requires Serves(ix, records, t) && o < |t.rows|
    ensures IsAt(records, t, o, r) && Raw(ix, o) == Some((r.name, r.def))
  {
    hide RawOf, HashOk;
    r := RecordAt(records, t, o);
    RawIsEntry(ix, records, t, o, r);
  }

  lemma HashFacts(ix: Index, records: seq<Record>, t: Tables)
    requires Serves(ix, records, t)
    ensures |ix.hash| == 4 * |t.hash| && (|t.hash| == 0 ==> records == [])
    ensures |t.hash| > 0 ==> Used(t.hash) < |t.hash| && IsPowerOfTwo(|t.hash|)
  {
    TableLength(t.hash);
  }

  lemma Begin(t: Tables, name: seq<Byte>, home: nat)
    requires home < |t.hash|
    ensures TakenUpTo(t.hash, home, home) && PassedOver(t, name, home, home)
  {
  }

  lemma StepsBound(a: nat, b: nat, slots: nat)
    requires a < slots && b < slots
    ensures Steps(a, b, slots) < slots
  {
  }

  lemma PassOne(t: Tables, name: seq<Byte>, home: nat, slot: nat)
    requires home < |t.hash| && slot < |t.hash| && PassedOver(t, name, home, slot)
    requires t.hash[slot] < |t.rows| && t.rows[t.hash[slot]].name != name
    requires Steps(home, After(slot, |t.hash|), |t.hash|) == Steps(home, slot, |t.hash|) + 1
    ensures PassedOver(t, name, home, After(slot, |t.hash|))
  {
    forall c | 0 <= c < |t.hash| && Steps(home, c, |t.hash|) <= Steps(home, slot, |t.hash|)
      ensures t.hash[c] < |t.rows| && t.rows[t.hash[c]].name != name
    {
      assert Steps(home, c, |t.hash|) == Steps(home, slot, |t.hash|) ==> c == slot;
    }
  }

  /** A free slot on the way: no record has the name. */
  lemma NotPresent(ix: Index, records: seq<Record>, t: Tables, name: seq<Byte>, slot: nat)
    requires Serves(ix, records, t) && slot < |t.hash| && t.hash[slot] == EMPTY
    requires PassedOver(t, name, Home(name, |t.hash|), slot)
    ensures forall x <- records :: x.name != name
  {
    hide RawOf, NameHash, HashSlots, Used, AllWellFormed, Distinct, Small, IndexOf, RowsOf, Sort;
    if x :| x in records && x.name == name {
      var o := OrdinalOf(records, t, x);
      assert o < |records| && NamesOf(t.rows)[o] == name;
      assert Placed(t.hash, name, o);
      var s :| 0 <= s < |t.hash| && t.hash[s] == o && TakenUpTo(t.hash, Home(name, |t.hash|), s);
      SmallCount(records);
      SameSteps(Home(name, |t.hash|), s, slot, |t.hash|);
    }
  }

  lemma SameSteps(home: nat, a: nat, b: nat, slots: nat)
    requires home < slots && a < slots && b < slots
    ensures Steps(home, a, slots) == Steps(home, b, slots) ==> a == b
  {
  }

  lemma SmallCount(records: seq<Record>)
    requires AllWellFormed(records) && |RawOf(records)| <= EMPTY
    ensures |records| < EMPTY
  {
    RawIsLonger(records);
  }

  /** The names in front of `name`, in name order. */
  function NamesBefore(records: seq<Record>, name: seq<Byte>): set<seq<Byte>> {
    set x <- records | NameLe(x.name, name) && x.name != name :: x.name
  }

  /** Names lie in the index in strictly rising order, so an ordinal is a rank. */
  lemma OrdinalIsRank(ix: Index, records: seq<Record>, t: Tables, o: nat)
    requires Serves(ix, records, t) && o < |t.rows|
    ensures o == |NamesBefore(records, t.rows[o].name)|
    ensures forall j :: 0 <= j < o ==> NameLe(t.rows[j].name, t.rows[o].name) && t.rows[j].name != t.rows[o].name
  {
    hide RawOf, HashOk, HashSlots;
    SortedRows(records, t.rows);
    NeighboursDecide(records, t.rows);
    SortedNamesDiffer(t.rows);
    var name := t.rows[o].name;
    forall j | 0 <= j < o ensures NameLe(t.rows[j].name, name) && t.rows[j].name != name {
      assert RowLe(t.rows[j], t.rows[o]);
    }
    FirstNames(t.rows, o);
    var before, first := NamesBefore(records, name), set j | 0 <= j < o :: t.rows[j].name;
    forall n | n in before ensures n in first {
      var x :| x in records && x.name == n && NameLe(n, name) && n != name;
      var j := OrdinalOf(records, t, x);
      if j >= o {
        assert j == o || RowLe(t.rows[o], t.rows[j]);
        NameTotal(n, name);
      }
    }
    forall n | n in first ensures n in before {
      var j :| 0 <= j < o && t.rows[j].name == n;
      var x := RecordAt(records, t, j);
      assert x in records;
    }
    assert before == first;
  }

  lemma {:induction false} FirstNames(rows: seq<Row>, o: nat)
    requires o <= |rows| && NamesDiffer(rows)
    ensures |(set j | 0 <= j < o :: rows[j].name)| == o
    decreases o
  {
    if o > 0 {
      FirstNames(rows, o - 1);
      var fewer := set j | 0 <= j < o - 1 :: rows[j].name;
      assert (set j | 0 <= j < o :: rows[j].name) == fewer + {rows[o - 1].name};
      assert rows[o - 1].name !in fewer;
    }
  }

  // ---------- by id ----------

  /** The first index for which `pred` no longer holds. */
  method PartitionPoint(len: nat, pred: nat -> bool) returns (lo: nat)
    requires forall i: nat, j: nat :: i < j < len && pred(j) ==> pred(i)
    ensures lo <= len
    ensures forall k: nat :: k < len ==> (pred(k) <==> k < lo)
  {
    lo := 0;
    var hi := len;
    while lo < hi
      invariant lo <= hi <= len
      invariant forall k: nat :: k < lo ==> pred(k)
      invariant forall k: nat :: hi <= k < len ==> !pred(k)
      decreases hi - lo
    {
      var mid: nat := lo + (hi - lo) / 2;
      if pred(mid) {
        lo := mid + 1;
      } else {
        hi := mid;
      }
    }
  }

  function OrdinalAt(ix: Index, k: nat): nat {
    if k * 4 + 4 <= |ix.byId| then BeAt32(ix.byId, k * 4) else 0
  }

  function KeyAt(ix: Index, k: nat): Int32 {
    var id := IdAt(ix, OrdinalAt(ix, k));
    if id.Some? then id.value else 0
  }

  function OrdinalsFrom(ix: Index, start: nat, end: nat): (found: seq<nat>)
    requires start <= end
    decreases end - start
    ensures |found| == end - start && forall k :: 0 <= k < |found| ==> found[k] == OrdinalAt(ix, start + k)
  {
    if start == end then [] else [OrdinalAt(ix, start)] + OrdinalsFrom(ix, start + 1, end)
  }

  lemma KeyIsId(ix: Index, records: seq<Record>, t: Tables, k: nat)
    requires Serves(ix, records, t) && k < |t.rows|
    ensures OrdinalAt(ix, k) == t.byId[k] < |t.rows|
    ensures KeyAt(ix, k) == t.rows[t.byId[k]].id
  {
    hide RawOf, HashOk, HashSlots, IdAt, TablesOf, AllWellFormed, Distinct;
    ByIdFacts(records, t);
    TableAt(t.byId, k);
    hide TableBytes, Be32, FromBe32;
    Be32RoundTrip(t.byId[k]);
    IdAtIsId(ix, records, t, t.byId[k]);
  }

  /** Every ordinal is listed once, by id, equal ids by ordinal. */
  lemma ByIdFacts(records: seq<Record>, t: Tables)
    requires AllWellFormed(records) && TablesOf(records, t)
    ensures |t.byId| == |t.rows|
    ensures forall k :: 0 <= k < |t.byId| ==> t.byId[k] < |t.rows|
    ensures forall j, k :: 0 <= j < k < |t.byId| ==>
              var a, b := t.byId[j], t.byId[k];
              t.rows[a].id < t.rows[b].id || (t.rows[a].id == t.rows[b].id && a < b)
    ensures forall o :: 0 <= o < |t.rows| ==> o in t.byId
  {
    hide RawOf, HashOk, HashSlots, AllWellFormed, RowsOf;
    var n := |t.rows|;
    IdOrder(t.rows);
    SortSorts(IdLe(t.rows), Ordinals(n));
    forall k | 0 <= k < n ensures t.byId[k] < n {
      assert t.byId[k] in multiset(Ordinals(n));
    }
    forall o | 0 <= o < n ensures o in t.byId {
      assert Ordinals(n)[o] in multiset(Ordinals(n));
      assert o in multiset(t.byId);
    }
    forall j, k | 0 <= j < k < n
      ensures var a, b := t.byId[j], t.byId[k];
              t.rows[a].id < t.rows[b].id || (t.rows[a].id == t.rows[b].id && a < b)
    {
      assert IdLe(t.rows)(t.byId[j], t.byId[k]);
      TwoOccurrences(t.byId, j, k);
      OneOccurrence(Ordinals(n), t.byId[j]);
    }
  }

  /** Every entry with this id, in name order; none if there is no such entry. */
  method ById(ix: Index, id: Int32, ghost records: seq<Record>, ghost t: Tables) returns (r: Option<seq<nat>>)
    requires Serves(ix, records, t)
    ensures r.None? <==> forall x <- records :: WellFormed(x) ==> IdOf(x) != id
    ensures r.Some? ==> forall o :: 0 <= o < |t.rows| ==> (o in r.value <==> t.rows[o].id == id)
    ensures r.Some? ==> forall j, k :: 0 <= j < k < |r.value| ==> r.value[j] < r.value[k] < |t.rows|
    ensures r.Some? ==> forall j :: 0 <= j < |r.value| ==> r.value[j] < |t.rows|
  {
    hide Serves, KeyAt, OrdinalAt, TablesOf;
    KeysRise(ix, records, t);
    var below, notAbove := (k: nat) => KeyAt(ix, k) < id, (k: nat) => KeyAt(ix, k) <= id;
    var start := PartitionPoint(ix.count, below);
    var end := PartitionPoint(ix.count, notAbove);
    forall k: nat | k < ix.count
      ensures (KeyAt(ix, k) < id <==> k < start) && (KeyAt(ix, k) <= id <==> k < end)
    {
      assert below(k) <==> k < start;
      assert notAbove(k) <==> k < end;
    }
    AnyWithId(ix, records, t, id);
    if start < end {
      assert KeyAt(ix, start) == id;
      var found := OrdinalsFrom(ix, start, end);
      Group(ix, records, t, id, start, end, found);
      r := Some(found);
    } else {
      assert forall k: nat :: k < ix.count ==> KeyAt(ix, k) != id;
      r := None;
    }
  }

  lemma KeysRise(ix: Index, records: seq<Record>, t: Tables)
    requires Serves(ix, records, t)
    ensures ix.count == |t.rows| == |t.byId|
    ensures forall j: nat, k: nat :: j < k < ix.count ==> KeyAt(ix, j) <= KeyAt(ix, k)
  {
    hide RawOf, HashOk, HashSlots, KeyAt, OrdinalAt, AllWellFormed, Distinct;
    ByIdFacts(records, t);
    forall j: nat, k: nat | j < k < ix.count ensures KeyAt(ix, j) <= KeyAt(ix, k) {
      KeyIsId(ix, records, t, j);
      KeyIsId(ix, records, t, k);
    }
  }

  lemma AnyWithId(ix: Index, records: seq<Record>, t: Tables, id: Int32)
    requires Serves(ix, records, t)
    ensures (exists k: nat :: k < ix.count && KeyAt(ix, k) == id)
            <==> !(forall x <- records :: WellFormed(x) ==> IdOf(x) != id)
  {
    hide RawOf, HashOk, HashSlots, KeyAt, OrdinalAt, Distinct, IdOf;
    ByIdFacts(records, t);
    if k: nat :| k < ix.count && KeyAt(ix, k) == id {
      KeyIsId(ix, records, t, k);
      var r := RecordAt(records, t, t.byId[k]);
      assert r in records && IdOf(r) == id;
    }
    if x :| x in records && WellFormed(x) && IdOf(x) == id {
      var o := OrdinalWithId(records, t, x);
      assert o in t.byId;
      var k :| 0 <= k < |t.byId| && t.byId[k] == o;
      KeyIsId(ix, records, t, k);
    }
  }

  lemma OrdinalWithId(records: seq<Record>, t: Tables, r: Record) returns (o: nat)
    requires AllWellFormed(records) && TablesOf(records, t) && r in records
    ensures WellFormed(r) && o < |t.rows| && t.rows[o].id == IdOf(r)
  {
    hide HashOk, RawOf, EntryBytes, HashSlots, IdOf;
    SortedRows(records, t.rows);
    var k :| 0 <= k < |records| && records[k] == r;
    assert RowsOf(records)[k] in multiset(RowsOf(records));
    assert RowsOf(records)[k] in multiset(t.rows);
    o :| 0 <= o < |t.rows| && t.rows[o] == RowsOf(records)[k];
  }

  lemma Group(ix: Index, records: seq<Record>, t: Tables, id: Int32, start: nat, end: nat, found: seq<nat>)
    requires Serves(ix, records, t) && start < end <= ix.count && |found| == end - start
    requires forall k: nat :: k < ix.count ==> (KeyAt(ix, k) < id <==> k < start) && (KeyAt(ix, k) <= id <==> k < end)
    requires forall k :: 0 <= k < end - start ==> found[k] == OrdinalAt(ix, start + k)
    ensures forall o :: 0 <= o < |t.rows| ==> (o in found <==> t.rows[o].id == id)
    ensures forall j, k :: 0 <= j < k < |found| ==> found[j] < found[k] < |t.rows|
    ensures forall j :: 0 <= j < |found| ==> found[j] < |t.rows|
  {
    hide RawOf, HashOk, HashSlots, KeyAt, OrdinalAt, AllWellFormed, Distinct;
    ByIdFacts(records, t);
    forall k: nat | k < ix.count
      ensures OrdinalAt(ix, k) == t.byId[k] < |t.rows| && KeyAt(ix, k) == t.rows[t.byId[k]].id
    {
      KeyIsId(ix, records, t, k);
    }
    hide Serves;
    forall o | 0 <= o < |t.rows| && t.rows[o].id == id ensures o in found {
      assert o in t.byId;
      var k :| 0 <= k < |t.byId| && t.byId[k] == o;
      assert KeyAt(ix, k) == id;
      assert found[k - start] == o;
    }
  }

  // ---------- the map as a whole ----------

  /** The simple map: names to definitions. */
  ghost predicate Maps(records: seq<Record>, name: seq<Byte>, def: seq<Byte>) {
    exists k :: 0 <= k < |records| && records[k].name == name && records[k].def == def
  }

  /** Build a map, open it and look a name up: the definition is found exactly if a record has
      the name, and it is that record's. */
  method BuildAndLookUp(raw: seq<Byte>, name: seq<Byte>, ghost records: seq<Record>)
    returns (built: bool, def: Option<seq<Byte>>, ghost rank: nat)
    requires AllWellFormed(records) && raw == RawOf(records) && |raw| <= EMPTY
    ensures built <==> Distinct(records)
    ensures built ==> (def.Some? <==> exists k :: 0 <= k < |records| && records[k].name == name)
    ensures built && def.Some? ==> Maps(records, name, def.value) && rank == |NamesBefore(records, name)|
  {
    hide RawOf, AllWellFormed, Distinct, NamesBefore, HashSlots, HashOk;
    rank := 0;
    var blob;
    ghost var t;
    blob, t := WritePropmapBin(raw, records);
    if blob.Err? {
      return false, None, 0;
    }
    var index := New(blob.value);
    BlobHolds(raw, t);
    assert index == Some(IndexOf(raw, t));
    var ix := index.value;
    var found := Find(ix, name, records, t);
    if found.None? {
      return true, None, 0;
    }
    ghost var r := RecordAtOf(ix, records, t, found.value);
    OrdinalIsRank(ix, records, t, found.value);
    assert r in records && r.name == name;
    def := Some(Raw(ix, found.value).value.1);
    return true, def, found.value;
  }
}
