/** Building the property map: entry records behind a header, followed by the tables that let
    them be looked up in place. */
module PropMap {
  import opened Basics
  import opened Sorting

  const MAGIC: seq<Byte> := [0x57, 0x50, 0x4d, 0x32]
  const HEADER_LEN: nat := 12

  /** Marks a free slot of the hash table. */
  const EMPTY: nat := 0xffff_ffff

  // ---------- records ----------

  datatype Record = Record(flag: Byte, name: seq<Byte>, def: seq<Byte>)

  /** A definition holds at least the two ids it starts with, and both lengths fit 16 bits. */
  predicate WellFormed(r: Record) {
    |r.name| <= 0xffff && 8 <= |r.def| <= 0xffff
  }

  predicate AllWellFormed(records: seq<Record>) {
    forall k :: 0 <= k < |records| ==> WellFormed(records[k])
  }

  function EntryBytes(r: Record): seq<Byte>
    requires WellFormed(r)
  {
    [r.flag] + Be16(|r.name|) + r.name + Be16(|r.def|) + r.def
  }

  function RawOf(records: seq<Record>): seq<Byte>
    requires AllWellFormed(records)
    decreases |records|
  {
    if records == [] then []
    else
      var last := |records| - 1;
      RawOf(records[..last]) + EntryBytes(records[last])
  }

  function IdOf(r: Record): Int32
    requires WellFormed(r)
  {
    FromBeI32(r.def[4..8])
  }

  /** Append one record. Lengths are cut to 16 bits, so only well-formed records survive. */
  method PushEntry(raw: seq<Byte>, flag: Byte, name: seq<Byte>, def: seq<Byte>) returns (out: seq<Byte>)
    ensures out == raw + [flag] + Be16(|name| % 0x1_0000) + name + Be16(|def| % 0x1_0000) + def
    ensures forall records: seq<Record> ::
              AllWellFormed(records) && raw == RawOf(records) && WellFormed(Record(flag, name, def)) ==>
                AllWellFormed(records + [Record(flag, name, def)])
                && out == RawOf(records + [Record(flag, name, def)])
  {
    hide RawOf, EntryBytes, Be16;
    out := raw + [flag];
    out := out + Be16(|name| % 0x1_0000);
    out := out + name;
    out := out + Be16(|def| % 0x1_0000);
    out := out + def;
    forall records: seq<Record> |
      AllWellFormed(records) && raw == RawOf(records) && WellFormed(Record(flag, name, def))
      ensures AllWellFormed(records + [Record(flag, name, def)])
              && out == RawOf(records + [Record(flag, name, def)])
    {
      RawPush(records, Record(flag, name, def));
    }
  }

  lemma RawPush(records: seq<Record>, r: Record)
    requires AllWellFormed(records) && WellFormed(r)
    ensures AllWellFormed(records + [r])
    ensures RawOf(records + [r]) ==
            RawOf(records) + [r.flag] + Be16(|r.name| % 0x1_0000) + r.name + Be16(|r.def| % 0x1_0000) + r.def
  {
    hide Be16;
    assert (records + [r])[..|records|] == records;
    assert |r.name| % 0x1_0000 == |r.name| && |r.def| % 0x1_0000 == |r.def|;
    assert RawOf(records + [r]) == RawOf(records) + EntryBytes(r);
  }

  // ---------- entries in the raw bytes ----------

  ghost predicate EntryAt(raw: seq<Byte>, i: nat, r: Record) {
    WellFormed(r) && i + |EntryBytes(r)| <= |raw| && raw[i..i + |EntryBytes(r)|] == EntryBytes(r)
  }

  function Offset(records: seq<Record>, k: nat): nat
    requires AllWellFormed(records) && k <= |records|
  {
    |RawOf(records[..k])|
  }

  lemma {:induction false} EntriesLieInOrder(records: seq<Record>, k: nat)
    requires AllWellFormed(records) && k < |records|
    ensures EntryAt(RawOf(records), Offset(records, k), records[k])
    ensures Offset(records, k + 1) == Offset(records, k) + |EntryBytes(records[k])| <= |RawOf(records)|
    decreases |records|
  {
    hide EntryBytes;
    var last := |records| - 1;
    assert records[..k + 1][..k] == records[..k];
    if k == last {
      assert records[..k + 1] == records;
    } else {
      EntriesLieInOrder(records[..last], k);
      assert records[..last][..k] == records[..k] && records[..last][..k + 1] == records[..k + 1];
    }
  }

  /** The fields at their places. */
  lemma EntryFields(raw: seq<Byte>, i: nat, r: Record)
    requires EntryAt(raw, i, r)
    ensures var n, d := |r.name|, |r.def|;
            && |EntryBytes(r)| == 5 + n + d && i + 5 + n + d <= |raw|
            && FromBe16(raw[i + 1..i + 3]) == n
            && raw[i + 3..i + 3 + n] == r.name
            && FromBe16(raw[i + 3 + n..i + 5 + n]) == d
            && raw[i + 5 + n..i + 5 + n + d] == r.def
  {
    hide EntryBytes, Be16, FromBe16;
    var n, d, e := |r.name|, |r.def|, EntryBytes(r);
    Be16RoundTrip(n);
    Be16RoundTrip(d);
    EntryLayout(r);
    Within(raw, i, e, 1, 3);
    Within(raw, i, e, 3, 3 + n);
    Within(raw, i, e, 3 + n, 5 + n);
    Within(raw, i, e, 5 + n, 5 + n + d);
  }

  lemma EntryLayout(r: Record)
    requires WellFormed(r)
    ensures var n, d, e := |r.name|, |r.def|, EntryBytes(r);
            && |e| == 5 + n + d
            && e[1..3] == Be16(n) && e[3..3 + n] == r.name
            && e[3 + n..5 + n] == Be16(d) && e[5 + n..5 + n + d] == r.def
  {
    hide Be16;
  }

  lemma Within(raw: seq<Byte>, i: nat, e: seq<Byte>, lo: nat, hi: nat)
    requires i + |e| <= |raw| && raw[i..i + |e|] == e && lo <= hi <= |e|
    ensures raw[i + lo..i + hi] == e[lo..hi]
  {
    var whole, part := raw[i..i + |e|], raw[i + lo..i + hi];
    assert forall k :: 0 <= k < hi - lo ==> part[k] == raw[i + lo + k] == whole[lo + k];
  }

  // ---------- rows ----------

  /** What the tables need of a record. */
  datatype Row = Row(offset: nat, name: seq<Byte>, id: Int32)

  function RowsOf(records: seq<Record>): (rows: seq<Row>)
    requires AllWellFormed(records)
    ensures |rows| == |records|
  {
    seq(|records|, k requires 0 <= k < |records| => Row(Offset(records, k), records[k].name, IdOf(records[k])))
  }

  method CountEntries(raw: seq<Byte>, ghost records: seq<Record>) returns (count: nat)
    requires AllWellFormed(records) && raw == RawOf(records)
    ensures count == |records|
  {
    hide RawOf, EntryBytes, EntryAt;
    var i := 0;
    count := 0;
    RawEnds(records);
    while i < |raw|
      invariant count <= |records| && i == Offset(records, count)
      invariant i <= |raw| && (i == |raw| <==> count == |records|)
      decreases |raw| - i
    {
      EntriesLieInOrder(records, count);
      EntryFields(raw, i, records[count]);
      NextOffset(records, count);
      var namelen := FromBe16([raw[i + 1], raw[i + 2]]);
      assert [raw[i + 1], raw[i + 2]] == raw[i + 1..i + 3];
      i := i + 3 + namelen;
      var deflen := FromBe16([raw[i], raw[i + 1]]);
      assert [raw[i], raw[i + 1]] == raw[i..i + 2];
      i := i + 2 + deflen;
      count := count + 1;
    }
  }

  lemma RawEnds(records: seq<Record>)
    requires AllWellFormed(records)
    ensures Offset(records, 0) == 0 && Offset(records, |records|) == |RawOf(records)|
    ensures records != [] ==> RawOf(records) != []
  {
    assert records[..0] == [] && records[..|records|] == records;
  }

  lemma NextOffset(records: seq<Record>, k: nat)
    requires AllWellFormed(records) && k < |records|
    ensures Offset(records, k + 1) == |RawOf(records)| <==> k + 1 == |records|
  {
    RawEnds(records);
    if k + 1 < |records| {
      EntriesLieInOrder(records, k + 1);
      EntryFields(RawOf(records), Offset(records, k + 1), records[k + 1]);
    }
  }

  /** The rows of all entries, by walking the raw bytes. */
  method ReadRows(raw: seq<Byte>, ghost records: seq<Record>) returns (rows: seq<Row>)
    requires AllWellFormed(records) && raw == RawOf(records)
    ensures rows == RowsOf(records)
  {
    hide RawOf, EntryBytes, EntryAt;
    rows := [];
    var i := 0;
    RawEnds(records);
    while i < |raw|
      invariant |rows| <= |records| && i == Offset(records, |rows|)
      invariant rows == RowsOf(records)[..|rows|]
      invariant i <= |raw| && (i == |raw| <==> |rows| == |records|)
      decreases |raw| - i
    {
      ghost var k := |rows|;
      EntriesLieInOrder(records, k);
      EntryFields(raw, i, records[k]);
      NextOffset(records, k);
      var offset := i;
      var namelen := FromBe16([raw[i + 1], raw[i + 2]]);
      assert [raw[i + 1], raw[i + 2]] == raw[i + 1..i + 3];
      var name := raw[i + 3..i + 3 + namelen];
      i := i + 3 + namelen;
      var deflen := FromBe16([raw[i], raw[i + 1]]);
      assert [raw[i], raw[i + 1]] == raw[i..i + 2];
      var def := raw[i + 2..i + 2 + deflen];
      assert def == records[k].def;
      var id := FromBeI32(def[4..8]);
      i := i + 2 + deflen;
      rows := rows + [Row(offset, name, id)];
      assert rows[k] == RowsOf(records)[k];
    }
    assert RowsOf(records)[..|records|] == RowsOf(records);
  }

  // ---------- orders ----------

  /** Byte strings in lexicographic order. */
  predicate NameLe(a: seq<Byte>, b: seq<Byte>) {
    a == [] || (b != [] && (a[0] < b[0] || (a[0] == b[0] && NameLe(a[1..], b[1..]))))
  }

  predicate RowLe(a: Row, b: Row) {
    NameLe(a.name, b.name)
  }

  /** The first `k` bytes agree, and then `a` ends or goes on with the lesser byte. */
  predicate LessAt(a: seq<Byte>, b: seq<Byte>, k: nat) {
    && k <= |a| && k <= |b| && a[..k] == b[..k]
    && (k == |a| || (k < |b| && a[k] < b[k]))
  }

  /** Byte order: a name comes before another exactly if it is a prefix of it, or smaller at the
      first byte in which they differ. */
  lemma {:induction false} NameLeMeans(a: seq<Byte>, b: seq<Byte>)
    ensures NameLe(a, b) <==> exists k: nat :: LessAt(a, b, k)
  {
    if a == [] {
      assert LessAt(a, b, 0);
    } else if b != [] && a[0] == b[0] {
      NameLeMeans(a[1..], b[1..]);
      if k: nat :| LessAt(a[1..], b[1..], k) {
        assert a[..k + 1] == [a[0]] + a[1..][..k] && b[..k + 1] == [b[0]] + b[1..][..k];
        assert LessAt(a, b, k + 1);
      }
      if k: nat :| LessAt(a, b, k) {
        assert k > 0;
        assert a[1..][..k - 1] == a[..k][1..] && b[1..][..k - 1] == b[..k][1..];
        assert LessAt(a[1..], b[1..], k - 1);
      }
    } else if b != [] {
      if a[0] < b[0] {
        assert LessAt(a, b, 0);
      }
      if k: nat :| LessAt(a, b, k) {
        LessAtFirst(a, b, k);
      }
    }
  }

  lemma LessAtFirst(a: seq<Byte>, b: seq<Byte>, k: nat)
    requires a != [] && b != [] && LessAt(a, b, k)
    ensures a[0] == b[0] || a[0] < b[0]
  {
    if k > 0 {
      assert a[..k][0] == b[..k][0];
    }
  }

  lemma {:induction false} NameTotal(a: seq<Byte>, b: seq<Byte>)
    ensures NameLe(a, b) || NameLe(b, a)
    ensures NameLe(a, b) && NameLe(b, a) ==> a == b
  {
    if a != [] && b != [] {
      NameTotal(a[1..], b[1..]);
      assert a == [a[0]] + a[1..] && b == [b[0]] + b[1..];
    }
  }

  lemma {:induction false} NameTransitive(a: seq<Byte>, b: seq<Byte>, c: seq<Byte>)
    requires NameLe(a, b) && NameLe(b, c)
    ensures NameLe(a, c)
  {
    if a != [] && a[0] == b[0] == c[0] {
      NameTransitive(a[1..], b[1..], c[1..]);
    }
  }

  lemma RowOrder()
    ensures TotalPreorder(RowLe)
  {
    forall x: Row, y: Row ensures RowLe(x, y) || RowLe(y, x) {
      NameTotal(x.name, y.name);
    }
    forall x: Row, y: Row, z: Row | RowLe(x, y) && RowLe(y, z) ensures RowLe(x, z) {
      NameTransitive(x.name, y.name, z.name);
    }
  }

  /** Ordinals by (id, ordinal). */
  function IdLe(rows: seq<Row>): (nat, nat) -> bool {
    (a: nat, b: nat) =>
      var x, y := if a < |rows| then rows[a].id else 0, if b < |rows| then rows[b].id else 0;
      x < y || (x == y && a <= b)
  }

  function Ordinals(n: nat): (s: seq<nat>)
    ensures |s| == n && forall k :: 0 <= k < n ==> s[k] == k
  {
    seq(n, k => k)
  }

  // ---------- the hash table ----------

  const FNV_OFFSET: bv64 := 0xcbf2_9ce4_8422_2325
  const FNV_PRIME: bv64 := 0x0100_0000_01b3

  function Mix(h: bv64, b: Byte): bv64 {
    (h ^ (b as bv64)) * FNV_PRIME
  }

  function Fnv(h: bv64, name: seq<Byte>): bv64
    decreases |name|
  {
    if name == [] then h else Fnv(Mix(h, name[0]), name[1..])
  }

  function Fold(h: bv64): nat {
    (h ^ (h >> 32)) as nat
  }

  /** FNV-1a over the name, folded to 32 bits. */
  function NameHash(name: seq<Byte>): nat {
    Fold(Fnv(FNV_OFFSET, name))
  }

  method ComputeNameHash(name: seq<Byte>) returns (r: nat)
    ensures r == NameHash(name)
  {
    hide Mix, Fold;
    var h := FNV_OFFSET;
    assert name[0..] == name;
    for i := 0 to |name|
      invariant Fnv(FNV_OFFSET, name) == Fnv(h, name[i..])
    {
      assert name[i..][1..] == name[i + 1..];
      h := Mix(h, name[i]);
    }
    r := Fold(h);
  }

  function PowerOfTwo(k: nat): (p: nat)
    ensures p > 0
  {
    if k == 0 then 1 else 2 * PowerOfTwo(k - 1)
  }

  /** The least power of two from `p` on that is at least `n`. */
  function NextPowerOfTwo(n: nat, p: nat): (r: nat)
    requires p > 0
    ensures r >= n && r >= p && (r > p ==> r < 2 * n)
    decreases n - p
  {
    if p >= n then p else NextPowerOfTwo(n, 2 * p)
  }

  /** At least twice as many slots as entries, a power of two. */
  function HashSlots(count: nat): (slots: nat)
    ensures count > 0 ==> slots >= 2 * count
    ensures slots == 0 <==> count == 0
  {
    if count == 0 then 0 else NextPowerOfTwo(2 * count, 1)
  }

  /** The table's size is a power of two, and less than four times what it holds. */
  lemma SlotsArePowerOfTwo(count: nat)
    requires count > 0
    ensures IsPowerOfTwo(HashSlots(count))
    ensures HashSlots(count) < 4 * count
  {
    PowerReached(2 * count, 0);
  }

  lemma {:induction false} PowerReached(n: nat, k: nat)
    ensures exists j :: NextPowerOfTwo(n, PowerOfTwo(k)) == PowerOfTwo(j)
    decreases n - PowerOfTwo(k)
  {
    if PowerOfTwo(k) < n {
      assert PowerOfTwo(k + 1) == 2 * PowerOfTwo(k);
      PowerReached(n, k + 1);
    } else {
      assert NextPowerOfTwo(n, PowerOfTwo(k)) == PowerOfTwo(k);
    }
  }

  ghost predicate IsPowerOfTwo(n: nat) {
    exists k :: n == PowerOfTwo(k)
  }

  /** Bitwise and. */
  function And(x: nat, mask: nat): (r: nat)
    ensures r <= mask
  {
    if x == 0 || mask == 0 then 0 else 2 * And(x / 2, mask / 2) + x % 2 * (mask % 2)
  }

  /** Masking with one less than a power of two leaves the remainder: the part of `x` beyond
      the multiples of that power. */
  lemma {:induction false} MaskIsRemainder(x: nat, k: nat) returns (q: nat)
    ensures x == q * PowerOfTwo(k) + And(x, PowerOfTwo(k) - 1)
    ensures And(x, PowerOfTwo(k) - 1) < PowerOfTwo(k)
    decreases k
  {
    if k == 0 {
      q := x;
    } else {
      var p, h, mask := PowerOfTwo(k - 1), x / 2, PowerOfTwo(k) - 1;
      q := MaskIsRemainder(h, k - 1);
      assert mask / 2 == p - 1 && mask % 2 == 1;
      Doubled(x, h, p, q, And(h, p - 1));
      assert And(x, mask) == 2 * And(h, p - 1) + x % 2;
    }
  }

  lemma Doubled(x: nat, h: nat, p: nat, q: nat, r: nat)
    requires x == 2 * h + x % 2 && h == q * p + r
    ensures x == q * (2 * p) + (2 * r + x % 2)
  {
  }

  /** Where probing for a name starts. */
  function Home(name: seq<Byte>, slots: nat): (slot: nat)
    requires slots > 0
    ensures slot < slots
  {
    And(NameHash(name), slots - 1)
  }

  function After(slot: nat, slots: nat): (next: nat)
    requires slot < slots
    ensures next < slots
  {
    And(slot + 1, slots - 1)
  }

  lemma AtLeastTwice(q: nat, slots: nat)
    requires q >= 2
    ensures q * slots >= 2 * slots
  {
    assert q * slots == 2 * slots + (q - 2) * slots;
  }

  lemma Wraps(n: nat, slots: nat, q: nat, r: nat)
    requires 0 < n <= slots && n == q * slots + r && r < slots
    ensures r == if n == slots then 0 else n
  {
    if q >= 2 {
      AtLeastTwice(q, slots);
    }
  }

  /** The mask wraps around at the end of the table, and nowhere else. */
  lemma AfterWraps(slot: nat, slots: nat)
    requires slot < slots && IsPowerOfTwo(slots)
    ensures After(slot, slots) == if slot + 1 == slots then 0 else slot + 1
  {
    hide PowerOfTwo, And;
    var k :| slots == PowerOfTwo(k);
    var q := MaskIsRemainder(slot + 1, k);
    Wraps(slot + 1, slots, q, After(slot, slots));
  }

  /** Steps from `a` forward to `b`, around the end if need be. */
  function Steps(a: nat, b: nat, slots: nat): nat
    requires a < slots && b < slots
  {
    if a <= b then b - a else slots - a + b
  }

  /** Every slot probed on the way from `home` to `slot` is taken. */
  ghost predicate TakenUpTo(table: seq<nat>, home: nat, slot: nat)
    requires home < |table| && slot < |table|
  {
    forall c :: 0 <= c < |table| && Steps(home, c, |table|) < Steps(home, slot, |table|) ==> table[c] != EMPTY
  }

  ghost predicate Placed(table: seq<nat>, name: seq<Byte>, o: nat)
    requires |table| > 0
  {
    exists slot :: 0 <= slot < |table| && table[slot] == o && TakenUpTo(table, Home(name, |table|), slot)
  }

  function Used(table: seq<nat>): nat {
    if table == [] then 0
    else Used(table[..|table| - 1]) + (if table[|table| - 1] == EMPTY then 0 else 1)
  }

  /** The first `k` names are in the table, each where probing from its home finds it. */
  ghost predicate HashOk(table: seq<nat>, names: seq<seq<Byte>>, k: nat) {
    && k <= |names|
    && (|table| == 0 <==> names == []) && |table| >= 2 * |names|
    && (|table| > 0 ==> IsPowerOfTwo(|table|))
    && Used(table) == k
    && (forall s :: 0 <= s < |table| ==> table[s] == EMPTY || table[s] < k)
    && (forall o: nat :: o < k ==> |table| > 0 && Placed(table, names[o], o))
  }

  lemma {:induction false} SomeFree(table: seq<nat>)
    requires Used(table) < |table|
    ensures exists s :: 0 <= s < |table| && table[s] == EMPTY
    decreases |table|
  {
    var last := |table| - 1;
    if table[last] != EMPTY {
      SomeFree(table[..last]);
      var s :| 0 <= s < last && table[..last][s] == EMPTY;
      assert table[s] == EMPTY;
    }
  }

  lemma {:induction false} UseOne(table: seq<nat>, s: nat, o: nat)
    requires s < |table| && table[s] == EMPTY && o != EMPTY
    ensures Used(table[s := o]) == Used(table) + 1
    decreases |table|
  {
    var last := |table| - 1;
    if s == last {
      assert table[s := o][..last] == table[..last];
    } else {
      assert table[s := o][..last] == table[..last][s := o];
      UseOne(table[..last], s, o);
    }
  }

  lemma {:induction false} AllFree(n: nat, table: seq<nat>)
    requires |table| == n && forall s :: 0 <= s < n ==> table[s] == EMPTY
    ensures Used(table) == 0
    decreases n
  {
    if n > 0 {
      AllFree(n - 1, table[..n - 1]);
    }
  }

  /** One step further along the probe sequence, unless it has come all the way around. */
  lemma ProbeNext(table: seq<nat>, home: nat, slot: nat)
    requires home < |table| && slot < |table|
    requires TakenUpTo(table, home, slot) && table[slot] != EMPTY && Used(table) < |table|
    requires IsPowerOfTwo(|table|)
    ensures var next := After(slot, |table|);
            TakenUpTo(table, home, next) && Steps(home, next, |table|) == Steps(home, slot, |table|) + 1
  {
    AfterWraps(slot, |table|);
    hide After;
    SomeFree(table);
    var s :| 0 <= s < |table| && table[s] == EMPTY;
    assert Steps(home, s, |table|) > Steps(home, slot, |table|);
  }

  /** Fill the table: each name goes into the first free slot from its home on. */
  method BuildHash(names: seq<seq<Byte>>) returns (hash: array<nat>)
    requires |names| < EMPTY
    ensures fresh(hash) && hash.Length == HashSlots(|names|) && HashOk(hash[..], names, |names|)
  {
    var slots := HashSlots(|names|);
    hash := new nat[slots](_ => EMPTY);
    AllFree(slots, hash[..]);
    if names != [] {
      SlotsArePowerOfTwo(|names|);
    }
    for ordinal := 0 to |names|
      invariant HashOk(hash[..], names, ordinal)
    {
      InsertName(hash, names, ordinal);
    }
  }

  method InsertName(hash: array<nat>, names: seq<seq<Byte>>, ordinal: nat)
    requires ordinal < |names| < EMPTY && HashOk(hash[..], names, ordinal)
    modifies hash
    ensures HashOk(hash[..], names, ordinal + 1)
  {
    hide Used, NameHash, HashOk, IsPowerOfTwo, After, And;
    var slots := hash.Length;
    var name := names[ordinal];
    RoomLeft(hash[..], names, ordinal);
    var slot: nat := Home(name, slots);
    while hash[slot] != EMPTY
      invariant hash[..] == old(hash[..])
      invariant slot < slots && TakenUpTo(hash[..], Home(name, slots), slot)
      decreases slots - Steps(Home(name, slots), slot, slots)
    {
      ProbeNext(hash[..], Home(name, slots), slot);
      slot := After(slot, slots);
    }
    PlaceName(hash[..], names, ordinal, slot);
    hash[slot] := ordinal;
    assert hash[..] == old(hash[..])[slot := ordinal];
  }

  lemma RoomLeft(table: seq<nat>, names: seq<seq<Byte>>, k: nat)
    requires HashOk(table, names, k) && k <= |names| && names != []
    ensures |table| > 0 && Used(table) < |table| && IsPowerOfTwo(|table|)
  {
  }

  lemma PlaceName(table: seq<nat>, names: seq<seq<Byte>>, ordinal: nat, slot: nat)
    requires ordinal < |names| < EMPTY && HashOk(table, names, ordinal)
    requires slot < |table| && table[slot] == EMPTY
    requires TakenUpTo(table, Home(names[ordinal], |table|), slot)
    ensures HashOk(table[slot := ordinal], names, ordinal + 1)
  {
    hide NameHash;
    UseOne(table, slot, ordinal);
    hide Used;
    var after := table[slot := ordinal];
    forall o: nat | o < ordinal + 1 ensures Placed(after, names[o], o) {
      if o < ordinal {
        assert Placed(table, names[o], o);
        var s :| 0 <= s < |table| && table[s] == o && TakenUpTo(table, Home(names[o], |table|), s);
        assert after[s] == o && TakenUpTo(after, Home(names[o], |after|), s);
      } else {
        assert after[slot] == o && TakenUpTo(after, Home(names[o], |after|), slot);
      }
    }
  }

  // ---------- the blob ----------

  function TableBytes(table: seq<nat>): seq<Byte>
    requires forall k :: 0 <= k < |table| ==> table[k] <= EMPTY
    decreases |table|
  {
    if table == [] then []
    else
      var last := |table| - 1;
      TableBytes(table[..last]) + Be32(table[last])
  }

  /** The tables of a map: rows in name order, ordinals in id order, and the hash table. */
  datatype Tables = Tables(rows: seq<Row>, byId: seq<nat>, hash: seq<nat>)

  function NamesOf(rows: seq<Row>): (names: seq<seq<Byte>>)
    ensures |names| == |rows|
  {
    seq(|rows|, k requires 0 <= k < |rows| => rows[k].name)
  }

  function OffsetsOf(rows: seq<Row>): (offsets: seq<nat>)
    ensures |offsets| == |rows|
  {
    seq(|rows|, k requires 0 <= k < |rows| => rows[k].offset)
  }

  predicate Distinct(records: seq<Record>) {
    forall j, k :: 0 <= j < k < |records| ==> records[j].name != records[k].name
  }

  ghost predicate TablesOf(records: seq<Record>, t: Tables)
    requires AllWellFormed(records)
  {
    && t.rows == Sort(RowLe, RowsOf(records))
    && t.byId == Sort(IdLe(t.rows), Ordinals(|records|))
    && |t.rows| == |t.byId| == |records|
    && |t.hash| == HashSlots(|records|)
    && HashOk(t.hash, NamesOf(t.rows), |records|)
  }

  /** All numbers in the tables fit 32 bits. */
  predicate Small(t: Tables) {
    && |t.rows| <= EMPTY
    && (forall k :: 0 <= k < |t.rows| ==> OffsetsOf(t.rows)[k] <= EMPTY)
    && (forall k :: 0 <= k < |t.byId| ==> t.byId[k] <= EMPTY)
    && (forall k :: 0 <= k < |t.hash| ==> t.hash[k] <= EMPTY)
  }

  function Blob(raw: seq<Byte>, t: Tables): seq<Byte>
    requires |raw| <= EMPTY && Small(t)
  {
    MAGIC + Be32(|t.rows|) + Be32(|raw|) + raw
    + TableBytes(OffsetsOf(t.rows)) + TableBytes(t.byId) + TableBytes(t.hash)
  }

  /** Every record takes at least 13 bytes, so the tables stay far below the 32-bit limits. */
  lemma {:induction false} RawIsLonger(records: seq<Record>)
    requires AllWellFormed(records)
    ensures |RawOf(records)| >= 13 * |records|
    decreases |records|
  {
    if records != [] {
      RawIsLonger(records[..|records| - 1]);
    }
  }

  lemma IdOrder(rows: seq<Row>)
    ensures TotalPreorder(IdLe(rows))
  {
  }

  lemma OffsetsFit(records: seq<Record>, rows: seq<Row>)
    requires AllWellFormed(records) && |RawOf(records)| <= EMPTY
    requires multiset(rows) == multiset(RowsOf(records))
    ensures forall k :: 0 <= k < |rows| ==> OffsetsOf(rows)[k] <= EMPTY
  {
    hide RawOf;
    forall k | 0 <= k < |rows| ensures rows[k].offset <= EMPTY {
      assert rows[k] in multiset(RowsOf(records));
      var j :| 0 <= j < |records| && RowsOf(records)[j] == rows[k];
      EntriesLieInOrder(records, j);
    }
  }

  lemma OrdinalsFit(rows: seq<Row>, n: nat, byId: seq<nat>)
    requires byId == Sort(IdLe(rows), Ordinals(n)) && n <= EMPTY
    ensures |byId| == n && forall k :: 0 <= k < n ==> byId[k] < n
  {
    IdOrder(rows);
    SortSorts(IdLe(rows), Ordinals(n));
    forall k | 0 <= k < n ensures byId[k] < n {
      assert byId[k] in multiset(Ordinals(n));
    }
  }

  method WriteTable(out: seq<Byte>, table: seq<nat>) returns (after: seq<Byte>)
    requires forall k :: 0 <= k < |table| ==> table[k] <= EMPTY
    ensures after == out + TableBytes(table)
  {
    after := out;
    for k := 0 to |table|
      invariant after == out + TableBytes(table[..k])
    {
      assert table[..k + 1][..k] == table[..k];
      after := after + Be32(table[k]);
    }
    assert table[..|table|] == table;
  }

  /** Neighbours in the sorted rows have different names exactly when all records do. */
  lemma NeighboursDecide(records: seq<Record>, rows: seq<Row>)
    requires AllWellFormed(records) && rows == Sort(RowLe, RowsOf(records))
    ensures (forall k :: 0 <= k < |rows| - 1 ==> rows[k].name != rows[k + 1].name) <==> Distinct(records)
  {
    var all := RowsOf(records);
    RowOrder();
    SortSorts(RowLe, all);
    if forall k :: 0 <= k < |rows| - 1 ==> rows[k].name != rows[k + 1].name {
      SortedNamesDiffer(rows);
      NamesOccurOnce(rows, all);
      forall j, k | 0 <= j < k < |records| ensures records[j].name != records[k].name {
        assert all[j].name != all[k].name;
      }
    } else {
      var k :| 0 <= k < |rows| - 1 && rows[k].name == rows[k + 1].name;
      if Distinct(records) {
        NamesOccurOnce(all, rows);
      }
    }
  }

  lemma SortedNamesDiffer(rows: seq<Row>)
    requires SortedBy(RowLe, rows)
    requires forall k :: 0 <= k < |rows| - 1 ==> rows[k].name != rows[k + 1].name
    ensures forall j, k :: 0 <= j < k < |rows| ==> rows[j].name != rows[k].name
  {
    forall j, k | 0 <= j < k < |rows| ensures rows[j].name != rows[k].name {
      if rows[j].name == rows[k].name {
        assert RowLe(rows[j], rows[j + 1]);
        assert j + 1 == k || RowLe(rows[j + 1], rows[k]);
        NameTotal(rows[j].name, rows[j + 1].name);
      }
    }
  }

  predicate NamesDiffer(rows: seq<Row>) {
    forall j, k :: 0 <= j < k < |rows| ==> rows[j].name != rows[k].name
  }

  /** Rows with different names stay so in any other order. */
  lemma {:induction false} NamesOccurOnce(a: seq<Row>, b: seq<Row>)
    requires multiset(a) == multiset(b) && NamesDiffer(a)
    ensures NamesDiffer(b)
  {
    forall j, k | 0 <= j < k < |b| ensures b[j].name != b[k].name {
      TwoOccurrences(b, j, k);
      assert b[j] in multiset(a) && b[k] in multiset(a);
      var x :| 0 <= x < |a| && a[x] == b[j];
      var y :| 0 <= y < |a| && a[y] == b[k];
      if b[j] == b[k] {
        OneOccurrence(a, x);
      } else {
        assert x < y || y < x;
      }
    }
  }

  /** Build the whole map. Two records of one name stop the build. */
  method WritePropmapBin(raw: seq<Byte>, ghost records: seq<Record>)
    returns (r: Result<seq<Byte>>, ghost t: Tables)
    requires AllWellFormed(records) && raw == RawOf(records) && |raw| <= EMPTY
    ensures r.Ok? <==> Distinct(records)
    ensures r.Ok? ==> TablesOf(records, t) && Small(t) && r.value == Blob(raw, t)
  {
    hide RawOf, Used, HashOk, Sort, HashSlots, NamesDiffer, EntryBytes;
    t := Tables([], [], []);
    RawIsLonger(records);
    var rows := ReadRows(raw, records);
    rows := Sort(RowLe, rows);
    SortedRows(records, rows);
    NeighboursDecide(records, rows);
    for k := 0 to |rows|
      invariant forall j :: 0 <= j < k && j + 1 < |rows| ==> rows[j].name != rows[j + 1].name
    {
      if k + 1 < |rows| && rows[k].name == rows[k + 1].name {
        return Err(InvalidInput), t;
      }
    }
    var byId := Sort(IdLe(rows), Ordinals(|rows|));
    OrdinalsFit(rows, |rows|, byId);
    var hash := BuildHash(NamesOf(rows));
    t := Tables(rows, byId, hash[..]);
    HashFits(t.hash, NamesOf(rows));
    OffsetsFit(records, rows);
    var out := WriteBlob(raw, Tables(rows, byId, hash[..]));
    r := Ok(out);
  }

  method WriteBlob(raw: seq<Byte>, t: Tables) returns (out: seq<Byte>)
    requires |raw| <= EMPTY && Small(t)
    ensures out == Blob(raw, t)
  {
    hide TableBytes, Be32;
    out := MAGIC;
    out := out + Be32(|t.rows|);
    out := out + Be32(|raw|);
    out := out + raw;
    out := WriteTable(out, OffsetsOf(t.rows));
    out := WriteTable(out, t.byId);
    out := WriteTable(out, t.hash);
  }

  lemma SortedRows(records: seq<Record>, rows: seq<Row>)
    requires AllWellFormed(records) && rows == Sort(RowLe, RowsOf(records))
    ensures |rows| == |records| && SortedBy(RowLe, rows) && multiset(rows) == multiset(RowsOf(records))
  {
    RowOrder();
    SortSorts(RowLe, RowsOf(records));
  }

  lemma HashFits(hash: seq<nat>, names: seq<seq<Byte>>)
    requires HashOk(hash, names, |names|) && |names| < EMPTY
    ensures forall s :: 0 <= s < |hash| ==> hash[s] <= EMPTY
  {
  }
}
