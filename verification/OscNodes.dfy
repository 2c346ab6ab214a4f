/** The `name=value,name=value` form of node-set requests and node dumps. */
module OscNodes {
  import opened Basics
  import opened Osc

  type Pair = (seq<Byte>, seq<Byte>)

  const DOT: Byte := 0x2e
  const EQUALS: Byte := 0x3d

  // ---------- formatting ----------

  /** A local leaf name without grammar separators. */
  predicate NameOk(name: seq<Byte>) {
    name != [] && SLASH !in name && DOT !in name && COMMA !in name && EQUALS !in name && 0 !in name
  }

  predicate ValueOk(value: seq<Byte>) {
    COMMA !in value && 0 !in value
  }

  predicate PairsOk(pairs: seq<Pair>) {
    forall k :: 0 <= k < |pairs| ==> NameOk(pairs[k].0) && ValueOk(pairs[k].1)
  }

  function PairText(p: Pair): seq<Byte> {
    p.0 + [EQUALS] + p.1
  }

  /** The parts with commas in between. */
  function Join(parts: seq<seq<Byte>>): seq<Byte> {
    if parts == [] then []
    else if |parts| == 1 then parts[0]
    else parts[0] + [COMMA] + Join(parts[1..])
  }

  function Texts(pairs: seq<Pair>): (texts: seq<seq<Byte>>)
    ensures |texts| == |pairs|
  {
    seq(|pairs|, k requires 0 <= k < |pairs| => PairText(pairs[k]))
  }

  method FormatNodePairs(pairs: seq<Pair>) returns (r: Outcome<seq<Byte>>)
    ensures r == if PairsOk(pairs) then Done(Join(Texts(pairs))) else Failed(Malformed)
  {
    var formatted: seq<seq<Byte>> := [];
    for k := 0 to |pairs|
      invariant PairsOk(pairs[..k]) && formatted == Texts(pairs)[..k]
    {
      var (name, value) := pairs[k];
      if name == [] || SLASH in name || DOT in name || COMMA in name || EQUALS in name || 0 in name
         || name == [DOT] || name == [DOT, DOT] {
        return Failed(Malformed);
      }
      if COMMA in value || 0 in value {
        return Failed(Malformed);
      }
      formatted := formatted + [name + [EQUALS] + value];
    }
    assert pairs[..|pairs|] == pairs && Texts(pairs)[..|pairs|] == Texts(pairs);
    return Done(Join(formatted));
  }

  // ---------- parsing ----------

  /** Where `b` first occurs; the length if it does not. */
  function IndexOf(b: Byte, s: seq<Byte>): (k: nat)
    ensures k <= |s| && (b in s <==> k < |s|) && (k < |s| ==> s[k] == b)
  {
    if s == [] || s[0] == b then 0 else 1 + IndexOf(b, s[1..])
  }

  /** The parts between commas, empty ones included. */
  function Split(s: seq<Byte>): seq<seq<Byte>>
    decreases |s|
  {
    var k := IndexOf(COMMA, s);
    if k == |s| then [s] else [s[..k]] + Split(s[k + 1..])
  }

  /** The pairs among the parts; empty parts and parts without `=` are passed over. */
  function PairsIn(parts: seq<seq<Byte>>): seq<Pair> {
    if parts == [] then []
    else
      var k := IndexOf(EQUALS, parts[0]);
      (if k < |parts[0]| then [(parts[0][..k], parts[0][k + 1..])] else []) + PairsIn(parts[1..])
  }

  function ParseNodeDump(m: OscMessage): Outcome<seq<Pair>> {
    if |m.args| == 1 && m.args[0].StrArg? then Done(PairsIn(Split(m.args[0].text)))
    else Failed(Malformed)
  }

  // ---------- one undoes the other ----------

  lemma {:induction false} IndexBehind(b: Byte, front: seq<Byte>, rest: seq<Byte>)
    requires b !in front
    ensures IndexOf(b, front + [b] + rest) == |front|
    ensures IndexOf(b, front) == |front|
  {
    var all := front + [b] + rest;
    if front == [] {
      assert all[0] == b;
    } else {
      assert all[0] == front[0] && front[0] in front;
      assert all[1..] == front[1..] + [b] + rest;
      assert forall x <- front[1..] :: x in front;
      IndexBehind(b, front[1..], rest);
    }
  }

  lemma SplitFirst(first: seq<Byte>, tail: seq<Byte>)
    requires COMMA !in first
    ensures Split(first + [COMMA] + tail) == [first] + Split(tail)
    ensures Split(first) == [first]
  {
    var all := first + [COMMA] + tail;
    IndexBehind(COMMA, first, tail);
    assert all[..|first|] == first && all[|first| + 1..] == tail;
  }

  /** Parts without commas come apart again. */
  lemma {:induction false} SplitUndoesJoin(parts: seq<seq<Byte>>)
    requires parts != [] && forall k :: 0 <= k < |parts| ==> COMMA !in parts[k]
    ensures Split(Join(parts)) == parts
    ensures Split(Join(parts) + [COMMA]) == parts + [[]]
    decreases |parts|
  {
    hide Split;
    var first, rest := parts[0], parts[1..];
    SplitFirst([], []);
    if rest == [] {
      SplitFirst(first, []);
      assert first + [COMMA] + [] == first + [COMMA];
      assert [first] == parts;
    } else {
      SplitUndoesJoin(rest);
      var tail := Join(rest);
      SplitFirst(first, tail);
      SplitFirst(first, tail + [COMMA]);
      assert first + [COMMA] + tail + [COMMA] == first + [COMMA] + (tail + [COMMA]);
      assert [first] + rest == parts && [first] + (rest + [[]]) == parts + [[]];
    }
  }

  lemma {:induction false} PairsOfTexts(pairs: seq<Pair>, end: seq<seq<Byte>>)
    requires PairsOk(pairs) && PairsIn(end) == []
    ensures PairsIn(Texts(pairs) + end) == pairs
    decreases |pairs|
  {
    var parts := Texts(pairs) + end;
    if pairs == [] {
      assert parts == end;
    } else {
      var p := pairs[0];
      assert parts[0] == p.0 + [EQUALS] + p.1 && parts[1..] == Texts(pairs[1..]) + end;
      IndexBehind(EQUALS, p.0, p.1);
      assert parts[0][..|p.0|] == p.0 && parts[0][|p.0| + 1..] == p.1;
      PairsOfTexts(pairs[1..], end);
      assert [p] + pairs[1..] == pairs;
    }
  }

  /** A dump of what was formatted reads back as the same pairs, in order, with or without the
      trailing comma the console adds. */
  lemma DumpUndoesFormat(pairs: seq<Pair>, m: OscMessage)
    requires PairsOk(pairs) && |m.args| == 1 && m.args[0].StrArg?
    requires m.args[0].text == Join(Texts(pairs))
             || m.args[0].text == Join(Texts(pairs)) + [COMMA]
    ensures ParseNodeDump(m) == Done(pairs)
  {
    var texts := Texts(pairs);
    var text: seq<Byte> := m.args[0].text;
    assert PairsIn([[]]) == [] && texts + [] == texts;
    PairsOfTexts(pairs, []);
    PairsOfTexts(pairs, [[]]);
    if pairs == [] {
      NoPairs(text);
    } else {
      forall k | 0 <= k < |texts| ensures COMMA !in texts[k] {
        assert NameOk(pairs[k].0) && ValueOk(pairs[k].1);
      }
      SplitUndoesJoin(texts);
    }
  }

  lemma NoPairs(text: seq<Byte>)
    requires text == [] || text == [COMMA]
    ensures PairsIn(Split(text)) == []
  {
    assert Split([]) == [[]];
    if text == [COMMA] {
      assert text[1..] == [] && text[..0] == [];
      assert Split(text) == [[], []];
      assert Split(text)[1..] == Split([]);
    }
  }
}
