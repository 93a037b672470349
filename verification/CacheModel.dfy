/**
 * The block cache as a value: one finite map of blocks and the highest accepted slot, with the
 * slot window that decides admission and eviction, and what every run of it keeps.
 */
module CacheModel {
  import opened Base
  import opened Ancestry

  datatype CacheState = CacheState(dag: Dag, maxSlot: nat, follow: nat)
  {
    function CutOff(): int
    {
      maxSlot as int - follow
    }

    predicate Refuses(slot: Slot)
    {
      slot < CutOff()
    }

    // An unknown block inside the window enters without a header; everything else changes nothing.
    function Added(root: Root, slot: Slot): CacheState
    {
      if root in dag || Refuses(slot) then this
      else CacheState(dag[root := Node(slot, None)], if slot > maxSlot then slot else maxSlot, follow)
    }

    function WithHeader(root: Root, parent: Root): CacheState
      requires root in dag
    {
      this.(dag := dag[root := dag[root].(parent := Some(parent))])
    }

    function Cleaned(): CacheState
    {
      this.(dag := From(dag, CutOff()))
    }
  }

  function Empty(follow: nat): CacheState
  {
    CacheState(map[], 0, follow)
  }

  // ---------- invariants ----------

  // The cache holds only what the chain says.
  ghost predicate Agrees(chain: Chain, d: Dag)
  {
    forall r :: r in d ==>
      r in chain && d[r].slot == chain[r].slot && (d[r].parent.Some? ==> d[r].parent.value == chain[r].parent)
  }

  // maxSlot bounds every cached slot and belongs to a cached block.
  ghost predicate TopKept(s: CacheState)
  {
    && (forall r :: r in s.dag ==> s.dag[r].slot <= s.maxSlot)
    && (if s.dag == map[] then s.maxSlot == 0 else exists r :: r in s.dag && s.dag[r].slot == s.maxSlot)
  }

  lemma AgreesDescending(chain: Chain, d: Dag)
    requires Ordered(chain) && Agrees(chain, d)
    ensures Descending(d)
  {
    forall r | r in d && d[r].parent.Some? && d[r].parent.value in d
      ensures d[d[r].parent.value].slot < d[r].slot
    {
      assert chain[r].parent == d[r].parent.value;
    }
  }

  // ---------- runs ----------

  datatype CacheOp = Add(root: Root, slot: Slot) | SetHeader(root: Root, parent: Root) | Cleanup

  ghost predicate Allowed(chain: Chain, op: CacheOp)
  {
    match op
    case Add(root, slot) => root in chain && slot == chain[root].slot
    case SetHeader(root, parent) => root in chain && parent == chain[root].parent
    case Cleanup => true
  }

  ghost predicate AllAllowed(chain: Chain, ops: seq<CacheOp>)
  {
    forall op :: op in ops ==> Allowed(chain, op)
  }

  function Apply(s: CacheState, op: CacheOp): CacheState
  {
    match op
    case Add(root, slot) => s.Added(root, slot)
    case SetHeader(root, parent) => if root in s.dag then s.WithHeader(root, parent) else s
    case Cleanup => s.Cleaned()
  }

  function Run(s: CacheState, ops: seq<CacheOp>): CacheState
    decreases |ops|
  {
    if ops == [] then s else Run(Apply(s, ops[0]), ops[1..])
  }

  lemma {:induction false} RunAppends(s: CacheState, before: seq<CacheOp>, after: seq<CacheOp>)
    ensures Run(s, before + after) == Run(Run(s, before), after)
    decreases |before|
  {
    if before == [] {
      assert before + after == after;
    } else {
      assert (before + after)[1..] == before[1..] + after;
      RunAppends(Apply(s, before[0]), before[1..], after);
    }
  }

  // Slots of the blocks a run accepts, oldest first.
  function AcceptedSlots(s: CacheState, ops: seq<CacheOp>): seq<Slot>
    decreases |ops|
  {
    if ops == [] then []
    else
      var op := ops[0];
      (if op.Add? && op.root !in s.dag && !s.Refuses(op.slot) then [op.slot] else [])
      + AcceptedSlots(Apply(s, op), ops[1..])
  }

  lemma TopKeptByStep(s: CacheState, op: CacheOp)
    requires TopKept(s)
    ensures TopKept(Apply(s, op)) && Apply(s, op).maxSlot >= s.maxSlot && Apply(s, op).follow == s.follow
  {
    var t := Apply(s, op);
    if s.dag != map[] {
      var top :| top in s.dag && s.dag[top].slot == s.maxSlot;
      match op
      case Add(root, slot) =>
        if root !in s.dag && !s.Refuses(slot) {
          if slot > s.maxSlot {
            assert root in t.dag && t.dag[root].slot == t.maxSlot;
          } else {
            assert top in t.dag && t.dag[top].slot == t.maxSlot;
          }
        }
      case SetHeader(_, _) =>
        assert top in t.dag && t.dag[top].slot == t.maxSlot;
      case Cleanup =>
        assert top in t.dag && t.dag[top].slot == t.maxSlot;
    } else {
      match op
      case Add(root, slot) =>
        assert root in t.dag && t.dag[root].slot == t.maxSlot;
      case SetHeader(_, _) =>
      case Cleanup =>
        assert t.dag == map[];
    }
  }

  // What every run keeps: agreement with the chain, and the top block.
  lemma {:induction false} RunInvariant(chain: Chain, s: CacheState, ops: seq<CacheOp>)
    requires AllAllowed(chain, ops) && Agrees(chain, s.dag) && TopKept(s)
    ensures var t := Run(s, ops);
            Agrees(chain, t.dag) && TopKept(t) && t.maxSlot >= s.maxSlot && t.follow == s.follow
    decreases |ops|
  {
    if ops != [] {
      assert Allowed(chain, ops[0]);
      TopKeptByStep(s, ops[0]);
      RunInvariant(chain, Apply(s, ops[0]), ops[1..]);
    }
  }

  // maxSlot is the highest slot accepted since s, or what it was if nothing higher came.
  lemma {:induction false} MaxSlotIsHighest(s: CacheState, ops: seq<CacheOp>)
    ensures var t := Run(s, ops); var acc := AcceptedSlots(s, ops);
            && (forall x :: x in acc ==> x <= t.maxSlot)
            && s.maxSlot <= t.maxSlot
            && (t.maxSlot == s.maxSlot || t.maxSlot in acc)
    decreases |ops|
  {
    if ops != [] {
      var next := Apply(s, ops[0]);
      MaxSlotIsHighest(next, ops[1..]);
      forall x | x in AcceptedSlots(s, ops)
        ensures x <= Run(s, ops).maxSlot
      {
        assert x in AcceptedSlots(next, ops[1..]) || x <= next.maxSlot;
      }
    }
  }

  // From a new cache: no accepted slot exceeds maxSlot, and maxSlot is 0 or was accepted.
  lemma MaxSlotFromEmpty(follow: nat, ops: seq<CacheOp>)
    ensures var t := Run(Empty(follow), ops); var acc := AcceptedSlots(Empty(follow), ops);
            && (forall x :: x in acc ==> x <= t.maxSlot)
            && (if acc == [] then t.maxSlot == 0 else t.maxSlot in acc)
  {
    var t := Run(Empty(follow), ops);
    var acc := AcceptedSlots(Empty(follow), ops);
    MaxSlotIsHighest(Empty(follow), ops);
    if acc != [] && t.maxSlot == 0 {
      assert acc[0] in acc;
    }
  }

  // ---------- eviction is permanent ----------

  // A delivered root is cached or lies below the cut-off.
  ghost predicate Settled(chain: Chain, s: CacheState, r: Root)
  {
    r in chain && (r in s.dag || s.Refuses(chain[r].slot))
  }

  lemma SettledByStep(chain: Chain, s: CacheState, op: CacheOp, r: Root)
    requires Agrees(chain, s.dag) && Allowed(chain, op)
    requires Settled(chain, s, r) || (op.Add? && op.root == r)
    ensures Settled(chain, Apply(s, op), r)
    ensures Settled(chain, s, r) && r !in s.dag ==> r !in Apply(s, op).dag
  {
  }

  lemma {:induction false} SettledByRun(chain: Chain, s: CacheState, ops: seq<CacheOp>, r: Root)
    requires Agrees(chain, s.dag) && AllAllowed(chain, ops)
    requires Settled(chain, s, r) || (r in chain && Add(r, chain[r].slot) in ops)
    ensures Settled(chain, Run(s, ops), r)
    ensures Settled(chain, s, r) && r !in s.dag ==> r !in Run(s, ops).dag
    decreases |ops|
  {
    if ops != [] {
      assert Allowed(chain, ops[0]);
      var t := Apply(s, ops[0]);
      if Settled(chain, s, r) || (r in chain && ops[0] == Add(r, chain[r].slot)) {
        SettledByStep(chain, s, ops[0], r);
      }
      SettledByRun(chain, t, ops[1..], r);
    }
  }

  // Once a delivered root is missing - refused or evicted - no later delivery brings it back.
  lemma EvictionIsPermanent(chain: Chain, follow: nat, before: seq<CacheOp>, after: seq<CacheOp>, r: Root)
    requires AllAllowed(chain, before) && AllAllowed(chain, after)
    requires r in chain && Add(r, chain[r].slot) in before
    requires r !in Run(Empty(follow), before).dag
    ensures var t := Run(Empty(follow), before + after);
            r !in t.dag && t.Refuses(chain[r].slot) && t.Added(r, chain[r].slot) == t
  {
    var s := Run(Empty(follow), before);
    RunAppends(Empty(follow), before, after);
    SettledByRun(chain, Empty(follow), before, r);
    RunInvariant(chain, Empty(follow), before);
    SettledByRun(chain, s, after, r);
  }

  // Nor is a block lost: what was delivered and is not older than the follow distance is cached.
  lemma WindowIsCached(chain: Chain, follow: nat, ops: seq<CacheOp>, r: Root)
    requires AllAllowed(chain, ops) && r in chain && Add(r, chain[r].slot) in ops
    requires chain[r].slot + follow >= Run(Empty(follow), ops).maxSlot
    ensures r in Run(Empty(follow), ops).dag && Run(Empty(follow), ops).dag[r].slot == chain[r].slot
  {
    SettledByRun(chain, Empty(follow), ops, r);
    RunInvariant(chain, Empty(follow), ops);
  }

  // Cleaning up evicts exactly the blocks below the window, and never the highest accepted one.
  lemma CleanupKeepsWindow(s: CacheState, r: Root)
    requires TopKept(s) && r in s.dag
    ensures r in s.Cleaned().dag <==> s.dag[r].slot + s.follow >= s.maxSlot
    ensures exists top :: top in s.Cleaned().dag && s.dag[top].slot == s.maxSlot
  {
    var top :| top in s.dag && s.dag[top].slot == s.maxSlot;
    assert top in s.Cleaned().dag;
  }
}
