/** What an attended request makes of the responses it reads: which belong to the request and
    which are handed back to the next reader. */
module Attended {
  import opened Basics
  import opened Definitions
  import opened Reader

  const MAX_ATTENDED_BUFFERED: nat := 65536

  /** The root of a request and every definition of it read so far. */
  function Ids(root: Int32, defs: seq<NodeDef>): set<Int32> {
    {root} + set d <- defs :: d.id
  }

  predicate Related(root: Int32, defs: seq<NodeDef>, r: WingResponse) {
    r.Def? && (r.def.id in Ids(root, defs) || r.def.parentId in Ids(root, defs))
  }

  /** Responses read for a subtree request, split in arrival order into the definitions that
      belong to it and everything else. */
  function Split(root: Int32, rs: seq<WingResponse>): (seq<NodeDef>, seq<WingResponse>)
    decreases |rs|
  {
    if rs == [] then ([], [])
    else
      var last := |rs| - 1;
      var (defs, rest) := Split(root, rs[..last]);
      if Related(root, defs, rs[last]) then (defs + [rs[last].def], rest)
      else (defs, rest + [rs[last]])
  }

  lemma NothingSplit(root: Int32)
    ensures Split(root, []) == ([], []) && Ids(root, []) == {root} && EndsOnlyBefore(root, [])
  {
  }

  function IsDataOf(id: Int32): WingResponse -> bool {
    (r: WingResponse) => r.Value? && r.id == id
  }

  function IsDefinitionOf(id: Int32): WingResponse -> bool {
    (r: WingResponse) => r.Def? && r.def.id == id
  }

  lemma MatchesMean(id: Int32, r: WingResponse)
    ensures IsDataOf(id)(r) <==> exists data :: r == Value(id, data)
    ensures IsDefinitionOf(id)(r) <==> exists def :: r == Def(def) && def.id == id
  {
  }

  lemma IdsPush(root: Int32, defs: seq<NodeDef>, d: NodeDef)
    ensures Ids(root, defs + [d]) == Ids(root, defs) + {d.id}
  {
  }

  lemma SplitPush(root: Int32, rs: seq<WingResponse>, r: WingResponse)
    ensures var (defs, rest) := Split(root, rs);
            Split(root, rs + [r]) ==
            if Related(root, defs, r) then (defs + [r.def], rest) else (defs, rest + [r])
  {
    assert (rs + [r])[..|rs|] == rs;
  }

  /** `all` is `a` and `b`, each in order, one put between the other. */
  ghost predicate Merges(a: seq<WingResponse>, b: seq<WingResponse>, all: seq<WingResponse>)
    decreases |all|
  {
    if all == [] then a == [] && b == []
    else
      var last := |all| - 1;
      || (a != [] && a[|a| - 1] == all[last] && Merges(a[..|a| - 1], b, all[..last]))
      || (b != [] && b[|b| - 1] == all[last] && Merges(a, b[..|b| - 1], all[..last]))
  }

  function Wrapped(defs: seq<NodeDef>): seq<WingResponse> {
    seq(|defs|, i requires 0 <= i < |defs| => Def(defs[i]))
  }

  /** Each definition is the root, hangs on the root, or on (or is) one that came before it. */
  predicate Linked(root: Int32, defs: seq<NodeDef>) {
    forall i :: 0 <= i < |defs| ==>
      defs[i].id in Ids(root, defs[..i]) || defs[i].parentId in Ids(root, defs[..i])
  }

  /** A chain of definitions, by parent ids, from the `i`-th up to the root. */
  ghost predicate Reaches(root: Int32, defs: seq<NodeDef>, i: nat)
    requires i < |defs|
    decreases i
  {
    || defs[i].id == root
    || defs[i].parentId == root
    || exists j: nat :: j < i && (defs[j].id == defs[i].id || defs[j].id == defs[i].parentId)
                        && Reaches(root, defs, j)
  }

  /** No response read is lost or reordered, and the definitions kept form a tree at the root. */
  lemma {:induction false} SplitConserves(root: Int32, rs: seq<WingResponse>)
    ensures var (defs, rest) := Split(root, rs);
            Merges(Wrapped(defs), rest, rs) && Linked(root, defs)
    decreases |rs|
  {
    if rs != [] {
      var last := |rs| - 1;
      SplitConserves(root, rs[..last]);
      var (before, left) := Split(root, rs[..last]);
      var (defs, rest) := Split(root, rs);
      if Related(root, before, rs[last]) {
        assert Wrapped(defs)[..|before|] == Wrapped(before);
        LinkedPush(root, before, rs[last].def);
      } else {
        assert rest[..|left|] == left;
      }
    }
  }

  lemma LinkedPush(root: Int32, defs: seq<NodeDef>, d: NodeDef)
    requires Linked(root, defs)
    requires d.id in Ids(root, defs) || d.parentId in Ids(root, defs)
    ensures Linked(root, defs + [d])
  {
    var all := defs + [d];
    forall i | 0 <= i < |all|
      ensures all[i].id in Ids(root, all[..i]) || all[i].parentId in Ids(root, all[..i])
    {
      assert all[..i] == defs[..i];
    }
    assert defs[..|defs|] == defs;
  }

  /** Linked definitions all lead up to the root. */
  lemma {:induction false} LinkedReaches(root: Int32, defs: seq<NodeDef>, i: nat)
    requires Linked(root, defs) && i < |defs|
    ensures Reaches(root, defs, i)
    decreases i
  {
    var ids := Ids(root, defs[..i]);
    var up := if defs[i].id in ids then defs[i].id else defs[i].parentId;
    assert up in ids;
    if up != root {
      var j :| 0 <= j < i && defs[..i][j].id == up;
      LinkedReaches(root, defs, j);
    }
  }

  // ---------- which definitions a request is for ----------

  /** The `i`-th response is a definition that leads up to the root: it is the root's, or its
      parent is the root, or its own or its parent's id is that of an earlier one that does. */
  ghost predicate LeadsUp(root: Int32, rs: seq<WingResponse>, i: nat)
    requires i < |rs|
    decreases i
  {
    && rs[i].Def?
    && (|| rs[i].def.id == root
        || rs[i].def.parentId == root
        || exists j: nat :: j < i && LeadsUp(root, rs, j)
             && (rs[j].def.id == rs[i].def.id || rs[j].def.id == rs[i].def.parentId))
  }

  /** The definitions among the responses that lead up to the root, in order. */
  ghost function LeadingUp(root: Int32, rs: seq<WingResponse>, n: nat): seq<NodeDef>
    requires n <= |rs|
    decreases n
  {
    if n == 0 then []
    else LeadingUp(root, rs, n - 1) + (if LeadsUp(root, rs, n - 1) then [rs[n - 1].def] else [])
  }

  /** The other responses, in order. */
  ghost function Others(root: Int32, rs: seq<WingResponse>, n: nat): seq<WingResponse>
    requires n <= |rs|
    decreases n
  {
    if n == 0 then []
    else Others(root, rs, n - 1) + (if LeadsUp(root, rs, n - 1) then [] else [rs[n - 1]])
  }

  /** A kept definition is one of the responses that lead up, and the other way round. */
  lemma {:induction false} KeptLeadUp(root: Int32, rs: seq<WingResponse>, n: nat)
    requires n <= |rs|
    ensures forall d <- LeadingUp(root, rs, n) :: exists j: nat :: j < n && LeadsUp(root, rs, j) && rs[j].def == d
    ensures forall j: nat :: j < n && LeadsUp(root, rs, j) ==> rs[j].def in LeadingUp(root, rs, n)
    decreases n
  {
    hide LeadsUp;
    if n > 0 {
      KeptLeadUp(root, rs, n - 1);
    }
  }

  lemma RelatedIsLeadsUp(root: Int32, rs: seq<WingResponse>, i: nat)
    requires i < |rs|
    ensures Related(root, LeadingUp(root, rs, i), rs[i]) <==> LeadsUp(root, rs, i)
  {
    hide LeadingUp;
    KeptLeadUp(root, rs, i);
    var kept := LeadingUp(root, rs, i);
    if rs[i].Def? && Related(root, kept, rs[i]) && rs[i].def.id != root && rs[i].def.parentId != root {
      var up := if rs[i].def.id in Ids(root, kept) then rs[i].def.id else rs[i].def.parentId;
      var d :| d in kept && d.id == up;
      var j: nat :| j < i && LeadsUp(root, rs, j) && rs[j].def == d;
    }
    if LeadsUp(root, rs, i) && rs[i].def.id != root && rs[i].def.parentId != root {
      var j: nat :| j < i && LeadsUp(root, rs, j)
                    && (rs[j].def.id == rs[i].def.id || rs[j].def.id == rs[i].def.parentId);
      assert rs[j].def in kept;
    }
  }

  /** A request keeps exactly the definitions that lead up to its root, and sets exactly the
      other responses aside. */
  lemma {:induction false} SplitIsLeadingUp(root: Int32, rs: seq<WingResponse>, n: nat)
    requires n <= |rs|
    ensures Split(root, rs[..n]) == (LeadingUp(root, rs, n), Others(root, rs, n))
    decreases n
  {
    hide LeadsUp, Related;
    if n > 0 {
      SplitIsLeadingUp(root, rs, n - 1);
      RelatedIsLeadsUp(root, rs, n - 1);
      LeadsUpIsDef(root, rs, n - 1);
      SplitPush(root, rs[..n - 1], rs[n - 1]);
      assert rs[..n] == rs[..n - 1] + [rs[n - 1]];
      assert LeadingUp(root, rs, n - 1) + [] == LeadingUp(root, rs, n - 1);
      assert Others(root, rs, n - 1) + [] == Others(root, rs, n - 1);
    } else {
      assert rs[..0] == [];
    }
  }

  lemma LeadsUpIsDef(root: Int32, rs: seq<WingResponse>, i: nat)
    requires i < |rs|
    ensures LeadsUp(root, rs, i) ==> rs[i].Def?
  {
  }

  /** An end marker ends the request as soon as a definition of it has been read. */
  predicate EndsOnlyBefore(root: Int32, rs: seq<WingResponse>) {
    forall k :: 0 <= k < |rs| && rs[k] == End ==> Split(root, rs[..k]).0 == []
  }

  lemma EndsOnlyBeforePush(root: Int32, rs: seq<WingResponse>, r: WingResponse)
    requires EndsOnlyBefore(root, rs) && (r == End ==> Split(root, rs).0 == [])
    ensures EndsOnlyBefore(root, rs + [r])
  {
    var all := rs + [r];
    forall k | 0 <= k < |all| && all[k] == End
      ensures Split(root, all[..k]).0 == []
    {
      assert all[..k] == rs[..k];
    }
    assert all[..|rs|] == rs;
    assert rs[..|rs|] == rs;
  }

  /** Every read makes what is left smaller. */
  function Left(f: Future): nat {
    |f.pending| + |f.stream|
  }

  lemma NextShrinks(f: Future)
    requires NextResponse(f).Some?
    ensures Left(NextResponse(f).value.1) < Left(f)
    ensures NextResponse(f).value.1.pending == if f.pending == [] then [] else f.pending[1..]
  {
  }
}
