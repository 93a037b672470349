/** pool/blockcache.go and pool/cachedblock.go: the two-index block cache and the ancestor walk. */
module BlockCaches {
  import opened Base
  import opened Ancestry
  import opened CacheModel

  datatype Header = Header(slot: Slot, parentRoot: Root)

  function ParentOf(loaded: Option<Header>): Option<Root>
  {
    if loaded.None? then None else Some(loaded.value.parentRoot)
  }

  class CachedBlock {
    const root: Root
    const slot: Slot
    var header: Option<Header>

    constructor (root: Root, slot: Slot)
      ensures this.root == root && this.slot == slot && header == None
    {
      this.root := root;
      this.slot := slot;
      header := None;
    }

    function GetParentRoot(): Option<Root>
      reads this
    {
      if header.None? then None else Some(header.value.parentRoot)
    }

    ghost function AsNode(): Node
      reads this
    {
      Node(slot, GetParentRoot())
    }

    method SetHeader(h: Header)
      modifies this
      ensures header == Some(h)
    {
      header := Some(h);
    }

    // loaded is what the header request returns if it is made: None when it fails.
    method EnsureHeader(loaded: Option<Header>) returns (ok: bool)
      modifies this
      ensures header == if old(header).Some? then old(header) else loaded
      ensures ok <==> header.Some?
    {
      if header.Some? {
        return true;
      }
      if loaded.None? {
        return false;
      }
      header := loaded;
      ok := true;
    }
  }

  ghost predicate Filed(rootMap: map<Root, CachedBlock>, b: CachedBlock, s: Slot)
  {
    b.slot == s && b.root in rootMap && rootMap[b.root] == b
  }

  // Both indexes hold the same blocks: each under its own root, and once under its own slot.
  ghost predicate SameBlocks(slotMap: map<Slot, seq<CachedBlock>>, rootMap: map<Root, CachedBlock>)
  {
    && (forall r :: r in rootMap ==>
          rootMap[r].root == r && rootMap[r].slot in slotMap && rootMap[r] in slotMap[rootMap[r].slot])
    && (forall s, b :: s in slotMap && b in slotMap[s] ==> Filed(rootMap, b, s))
    && (forall s :: s in slotMap ==> slotMap[s] != [] && Distinct(slotMap[s]))
  }

  lemma SameBlocksAdd(slotMap: map<Slot, seq<CachedBlock>>, rootMap: map<Root, CachedBlock>, b: CachedBlock)
    requires SameBlocks(slotMap, rootMap) && b.root !in rootMap
    ensures SameBlocks(slotMap[b.slot := (if b.slot in slotMap then slotMap[b.slot] else []) + [b]],
                       rootMap[b.root := b])
  {
    var row := (if b.slot in slotMap then slotMap[b.slot] else []) + [b];
    var slots := slotMap[b.slot := row];
    var roots := rootMap[b.root := b];
    assert b.slot in slotMap ==> forall c :: c in slotMap[b.slot] ==> Filed(rootMap, c, b.slot);
    forall s, c | s in slots && c in slots[s]
      ensures Filed(roots, c, s)
    {
      assert c == b || (s in slotMap && c in slotMap[s] && Filed(rootMap, c, s));
    }
    assert b.slot in slotMap ==> Distinct(slotMap[b.slot]) && b !in slotMap[b.slot];
    assert Distinct(row);
  }

  lemma SameBlocksFrom(slotMap: map<Slot, seq<CachedBlock>>, rootMap: map<Root, CachedBlock>, minSlot: int,
                       slots: map<Slot, seq<CachedBlock>>, roots: map<Root, CachedBlock>)
    requires SameBlocks(slotMap, rootMap)
    requires forall s :: s in slots <==> s in slotMap && s >= minSlot
    requires forall s :: s in slots ==> slots[s] == slotMap[s]
    requires forall r :: r in roots <==> r in rootMap && rootMap[r].slot >= minSlot
    requires forall r :: r in roots ==> roots[r] == rootMap[r]
    ensures SameBlocks(slots, roots)
  {
    forall s, b | s in slots && b in slots[s]
      ensures Filed(roots, b, s)
    {
      assert Filed(rootMap, b, s);
    }
  }

  // No block twice, and never a higher slot after a lower one.
  ghost predicate OnceDownwards(blocks: seq<CachedBlock>)
  {
    Distinct(blocks) && forall i, j :: 0 <= i < j < |blocks| ==> blocks[i].slot >= blocks[j].slot
  }

  lemma OnceDownwardsAppend(blocks: seq<CachedBlock>, row: seq<CachedBlock>, s: Slot)
    requires OnceDownwards(blocks) && Distinct(row)
    requires forall b :: b in blocks ==> b.slot > s
    requires forall b :: b in row ==> b.slot == s
    ensures OnceDownwards(blocks + row)
  {
    var all := blocks + row;
    forall i, j | 0 <= i < j < |all|
      ensures all[i] != all[j] && all[i].slot >= all[j].slot
    {
      if i < |blocks| {
        assert all[i] in blocks;
      }
      if j >= |blocks| {
        assert all[j] in row;
      }
    }
  }

  class BlockCache {
    const followDistance: nat
    ghost const chain: Chain
    var slotMap: map<Slot, seq<CachedBlock>>
    var rootMap: map<Root, CachedBlock>
    var maxSlotIdx: nat
    ghost var Repr: set<CachedBlock>  // every block ever cached

    ghost var dag: Dag  // the blocks with their headers, as a value

    ghost function State(): CacheState
      reads this
    {
      CacheState(dag, maxSlotIdx, followDistance)
    }

    // dag records exactly the cached blocks.
    ghost predicate Recorded()
      reads this, Repr
    {
      && (forall r :: r in dag ==> r in rootMap)
      && forall r :: r in rootMap ==> r in dag && rootMap[r] in Repr && rootMap[r].AsNode() == dag[r]
    }

    ghost predicate Intact()
      reads this, Repr
    {
      && Recorded()
      && SameBlocks(slotMap, rootMap)
      && Ordered(chain) && Agrees(chain, dag)
    }

    // Intact, behind Look.
    ghost predicate Valid()
      reads this, Repr
    {
      forall k {:trigger Look(CacheSeal, k)} :: Look(CacheSeal, k) ==> Intact()
    }

    constructor (followDistance: nat, ghost chain: Chain)
      requires Ordered(chain)
      ensures Valid() && State() == Empty(followDistance)
      ensures this.chain == chain && this.followDistance == followDistance && rootMap == map[] && Repr == {}
    {
      this.followDistance := followDistance;
      this.chain := chain;
      slotMap := map[];
      rootMap := map[];
      maxSlotIdx := 0;
      Repr := {};
      dag := map[];
    }

    method AddBlock(root: Root, slot: Slot) returns (block: CachedBlock?, isNew: bool)
      requires Valid()
      requires Truthful(root, slot)
      modifies this
      ensures Valid()
      ensures State() == old(State()).Added(root, slot)
      ensures block != null <==> root in rootMap
      ensures block != null ==> rootMap[root] == block
      ensures root in rootMap <==> root in old(rootMap) || slot + followDistance >= old(maxSlotIdx)
      ensures maxSlotIdx == if root in rootMap && root !in old(rootMap) && slot > old(maxSlotIdx)
                            then slot else old(maxSlotIdx)
      ensures isNew <==> root in rootMap && root !in old(rootMap)
      ensures isNew ==> block.root == root && block.slot == slot && block.header == None
      ensures if isNew then fresh(block) && rootMap == old(rootMap)[root := block] && Repr == old(Repr) + {block}
              else rootMap == old(rootMap) && Repr == old(Repr)
    {
      assert Look(CacheSeal, 0);
      if root in rootMap {
        return rootMap[root], false;
      }

      var cutOffSlot := maxSlotIdx as int - followDistance;
      if cutOffSlot > 0 && slot < cutOffSlot {
        return null, false;
      }

      ghost var indexed := rootMap;
      block := IndexByRoot(root, slot);
      IndexBySlot(block, indexed);
      isNew := true;
    }

    // Creates the block and enters it into the root index.
    method IndexByRoot(root: Root, slot: Slot) returns (cacheBlock: CachedBlock)
      requires Recorded() && root !in rootMap
      modifies `rootMap, `maxSlotIdx, `Repr, `dag
      ensures Recorded()
      ensures dag == old(dag)[root := Node(slot, None)]
      ensures maxSlotIdx == if slot > old(maxSlotIdx) then slot else old(maxSlotIdx)
      ensures cacheBlock.root == root && cacheBlock.slot == slot && fresh(cacheBlock)
      ensures rootMap == old(rootMap)[root := cacheBlock] && Repr == old(Repr) + {cacheBlock}
    {
      cacheBlock := new CachedBlock(root, slot);
      rootMap := rootMap[root := cacheBlock];
      if slot > maxSlotIdx {
        maxSlotIdx := slot;
      }
      Repr := Repr + {cacheBlock};
      dag := dag[root := Node(slot, None)];
    }

    // Enters the block into the slot index.
    method IndexBySlot(b: CachedBlock, ghost indexed: map<Root, CachedBlock>)
      requires SameBlocks(slotMap, indexed) && b.root !in indexed && rootMap == indexed[b.root := b]
      modifies `slotMap
      ensures SameBlocks(slotMap, rootMap)
    {
      SameBlocksAdd(slotMap, indexed, b);
      if b.slot !in slotMap {
        slotMap := slotMap[b.slot := [b]];
      } else {
        slotMap := slotMap[b.slot := slotMap[b.slot] + [b]];
      }
    }

    // Stores a header in a cached block, and in the record of the cache.
    method SetBlockHeader(block: CachedBlock, h: Header)
      requires Intact() && Filed(rootMap, block, block.slot)
      requires h.parentRoot == chain[block.root].parent
      modifies block, `dag
      ensures Valid()
      ensures State() == old(State()).WithHeader(block.root, h.parentRoot)
    {
      block.SetHeader(h);
      RecordHeader(block, h.parentRoot);
    }

    // Brings the record up to date after a cached block has got its header.
    ghost method RecordHeader(block: CachedBlock, parent: Root)
      requires Filed(rootMap, block, block.slot) && block.GetParentRoot() == Some(parent)
      requires forall r :: r in dag ==> r in rootMap
      requires forall r :: r in rootMap ==>
        r in dag && rootMap[r] in Repr && (r != block.root ==> rootMap[r].AsNode() == dag[r])
      modifies `dag
      ensures Recorded() && dag == old(dag)[block.root := Node(block.slot, Some(parent))]
    {
      dag := dag[block.root := Node(block.slot, Some(parent))];
    }

    // As above, but only if the block has no header yet; fails where the header could not be loaded.
    method EnsureBlockHeader(block: CachedBlock, loaded: Option<Header>) returns (ok: bool)
      requires Intact() && Filed(rootMap, block, block.slot)
      requires loaded.Some? ==> loaded.value.parentRoot == chain[block.root].parent
      modifies block, `dag
      ensures Valid()
      ensures ok <==> HasHeader(old(dag), block.root) || loaded.Some?
      ensures State() == if ok && !HasHeader(old(dag), block.root)
                         then old(State()).WithHeader(block.root, loaded.value.parentRoot) else old(State())
    {
      ghost var had := block.header.Some?;
      ok := block.EnsureHeader(loaded);
      if ok && !had {
        RecordHeader(block, loaded.value.parentRoot);
      }
    }

    // What the chain says of a root; nothing else is ever delivered.
    ghost predicate Truthful(root: Root, slot: Slot)
    {
      root in chain && slot == chain[root].slot
    }

    ghost predicate Fits(root: Root, header: Option<Header>)
    {
      header.Some? ==> root in chain && header.value.parentRoot == chain[root].parent
    }

    // The cache's part of a block event: add the block, and load its header if it is missing.
    method ReceiveBlock(root: Root, slot: Slot, loaded: Option<Header>) returns (ok: bool)
      requires Valid() && Truthful(root, slot) && Fits(root, loaded)
      modifies this, Repr
      ensures Valid() && fresh(Repr - old(Repr))
      ensures var added := old(State()).Added(root, slot);
              if root !in added.dag || HasHeader(added.dag, root) then ok && State() == added
              else if loaded.Some? then ok && State() == added.WithHeader(root, loaded.value.parentRoot)
              else !ok && State() == added
      ensures ok <==>
        || loaded.Some?
        || (root in old(rootMap) && old(rootMap[root].header).Some?)
        || (root !in old(rootMap) && slot + followDistance < old(maxSlotIdx))
      ensures ok && root in rootMap ==> rootMap[root].header.Some?
    {
      assert Look(CacheSeal, 0);
      var currentBlock, _ := AddBlock(root, slot);
      assert Look(CacheSeal, 1);
      ok := true;
      if currentBlock != null {
        ok := EnsureBlockHeader(currentBlock, loaded);
      }
    }

    // The cache's part of a head poll: add the block, and set its header whether or not it has one.
    method StoreBlock(root: Root, header: Header)
      requires Valid() && Truthful(root, header.slot) && Fits(root, Some(header))
      modifies this, Repr
      ensures Valid() && fresh(Repr - old(Repr))
      ensures var added := old(State()).Added(root, header.slot);
              State() == if root in added.dag then added.WithHeader(root, header.parentRoot) else added
      ensures root in rootMap ==> rootMap[root].GetParentRoot() == Some(header.parentRoot)
    {
      assert Look(CacheSeal, 0);
      var cachedBlock, _ := AddBlock(root, header.slot);
      assert Look(CacheSeal, 1);
      if cachedBlock != null {
        SetBlockHeader(cachedBlock, header);
      }
    }

    function GetCachedBlockByRoot(root: Root): (block: CachedBlock?)
      reads this
    {
      if root in rootMap then rootMap[root] else null
    }

    method CleanupCache()
      requires Valid()
      modifies this
      ensures Valid() && Repr == old(Repr)
      ensures State() == old(State()).Cleaned()
      ensures forall r :: r in rootMap ==> r in old(rootMap) && rootMap[r] == old(rootMap)[r]
      ensures forall r :: r in old(rootMap) ==>
        (r in rootMap <==> old(rootMap)[r].slot + followDistance >= old(maxSlotIdx))
      ensures maxSlotIdx == old(maxSlotIdx)
    {
      assert Look(CacheSeal, 0);
      var minSlot := maxSlotIdx as int - followDistance;
      if minSlot <= 0 {
        NothingToClean(State());
        return;
      }

      Evict(minSlot);
      RecordEviction(minSlot);
    }

    // Brings the record up to date after the blocks below minSlot have left the root index.
    ghost method RecordEviction(minSlot: int)
      requires Agrees(chain, dag)
      requires forall r :: r in rootMap ==> r in dag && rootMap[r] in Repr && rootMap[r].AsNode() == dag[r]
      requires forall r :: r in rootMap <==> r in From(dag, minSlot)
      modifies `dag
      ensures Recorded() && Agrees(chain, dag) && dag == From(old(dag), minSlot)
    {
      dag := From(dag, minSlot);
    }

    // The loop of the clean-up: drops every slot below minSlot from both indexes.
    method Evict(minSlot: int)
      requires SameBlocks(slotMap, rootMap)
      modifies `slotMap, `rootMap
      ensures SameBlocks(slotMap, rootMap)
      ensures forall r :: r in rootMap <==> r in old(rootMap) && old(rootMap)[r].slot >= minSlot
      ensures forall r :: r in rootMap ==> rootMap[r] == old(rootMap)[r]
    {
      var todo := slotMap.Keys;
      while todo != {}
        invariant forall s :: s in slotMap <==> s in old(slotMap) && (s in todo || s >= minSlot)
        invariant forall s :: s in slotMap ==> slotMap[s] == old(slotMap)[s]
        invariant forall r :: r in rootMap <==>
          r in old(rootMap) && (old(rootMap)[r].slot in todo || old(rootMap)[r].slot >= minSlot)
        invariant forall r :: r in rootMap ==> rootMap[r] == old(rootMap)[r]
        invariant todo <= old(slotMap).Keys
        decreases |todo|
      {
        var slot :| slot in todo;
        todo := todo - {slot};
        if slot >= minSlot {
          continue;
        }
        assert forall b :: b in slotMap[slot] ==> Filed(old(rootMap), b, slot);
        DropRoots(slotMap[slot]);
        slotMap := slotMap - {slot};
      }
      SameBlocksFrom(old(slotMap), old(rootMap), minSlot, slotMap, rootMap);
    }

    // The inner loop of the clean-up: unindex every block of one slot.
    method DropRoots(blocks: seq<CachedBlock>)
      modifies `rootMap
      ensures forall r :: r in rootMap <==> r in old(rootMap) && forall b :: b in blocks ==> b.root != r
      ensures forall r :: r in rootMap ==> rootMap[r] == old(rootMap)[r]
    {
      for i := 0 to |blocks|
        invariant forall r :: r in rootMap <==> r in old(rootMap) && forall b :: b in blocks[..i] ==> b.root != r
        invariant forall r :: r in rootMap ==> rootMap[r] == old(rootMap)[r]
      {
        rootMap := rootMap - {blocks[i].root};
      }
    }

    // The loop of the ancestor walk decides the order exactly; the slot test loses no ancestor.
    method GetBlockDistance(blockRoot: Root, headRoot: Root) returns (isParent: bool, distance: nat)
      requires Valid()
      ensures isParent <==> Canonical(dag, blockRoot, headRoot)
      ensures isParent ==> PathTo(dag, blockRoot, headRoot, distance)
      ensures !isParent ==> distance == 0
      ensures distance == Distance(dag, blockRoot, headRoot)
    {
      assert Look(CacheSeal, 0);
      ghost var d := dag;
      AgreesDescending(chain, d);
      if headRoot == blockRoot {
        CanonicalReflexive(d, blockRoot);
        DistanceIs(d, blockRoot, headRoot, 0);
        return true, 0;
      }

      var block := GetCachedBlockByRoot(blockRoot);
      if block == null {
        return false, 0;
      }

      var blockSlot := block.slot;
      var headBlock := GetCachedBlockByRoot(headRoot);
      ghost var current := headRoot;
      var cdistance := 0;
      while headBlock != null
        invariant Ancestor(d, headRoot, cdistance) == Some(current)
        invariant headBlock == GetCachedBlockByRoot(current)
        invariant current != blockRoot
        invariant forall m: nat :: PathTo(d, blockRoot, headRoot, m) ==> m > cdistance
        decreases if headBlock == null then 0 else headBlock.slot + 1
      {
        if headBlock.slot < blockSlot {
          NoAncestorBelow(d, blockRoot, headRoot, current, cdistance);
          return false, 0;
        }

        var parentRoot := headBlock.GetParentRoot();
        if parentRoot == None {
          DeadEnd(d, blockRoot, headRoot, current, cdistance);
          return false, 0;
        }

        AncestorAdds(d, headRoot, cdistance, 1);
        assert Ancestor(d, d[current].parent.value, 0) == parentRoot;
        cdistance := cdistance + 1;
        if parentRoot.value == blockRoot {
          assert PathTo(d, blockRoot, headRoot, cdistance);
          DistanceIs(d, blockRoot, headRoot, cdistance);
          return true, cdistance;
        }

        current := parentRoot.value;
        headBlock := GetCachedBlockByRoot(parentRoot.value);
      }
      DeadEnd(d, blockRoot, headRoot, current, cdistance);
      return false, 0;
    }

    method IsCanonicalBlock(blockRoot: Root, headRoot: Root) returns (canonical: bool)
      requires Valid()
      ensures canonical <==> Canonical(dag, blockRoot, headRoot)
    {
      var distance;
      canonical, distance := GetBlockDistance(blockRoot, headRoot);
    }

    // Every cached block exactly once, in non-increasing slot order.
    method GetCachedBlocks() returns (blocks: seq<CachedBlock>)
      requires SameBlocks(slotMap, rootMap)
      ensures forall b :: b in blocks <==> Filed(rootMap, b, b.slot)
      ensures OnceDownwards(blocks)
    {
      var slots := SlotsDescending();
      blocks := [];
      for n := 0 to |slots|
        invariant forall b :: b in blocks ==> b.slot in slots[..n] && Filed(rootMap, b, b.slot)
        invariant forall k, b :: 0 <= k < n && b in slotMap[slots[k]] ==> b in blocks
        invariant OnceDownwards(blocks)
      {
        assert forall b :: b in blocks ==> b.slot > slots[n];
        assert forall b :: b in slotMap[slots[n]] ==> Filed(rootMap, b, slots[n]);
        OnceDownwardsAppend(blocks, slotMap[slots[n]], slots[n]);
        blocks := blocks + slotMap[slots[n]];
      }
    }

    // The keys of the slot index, each once, from the highest to the lowest.
    method SlotsDescending() returns (slots: seq<Slot>)
      ensures forall s :: s in slots <==> s in slotMap
      ensures forall i, j :: 0 <= i < j < |slots| ==> slots[i] > slots[j]
    {
      slots := [];
      var todo := slotMap.Keys;
      while todo != {}
        invariant todo <= slotMap.Keys
        invariant forall s :: s in slots <==> s in slotMap && s !in todo
        invariant forall i, j :: 0 <= i < j < |slots| ==> slots[i] > slots[j]
        decreases |todo|
      {
        var slot :| slot in todo;
        todo := todo - {slot};
        var at := 0;
        while at < |slots| && slots[at] > slot
          invariant 0 <= at <= |slots|
          invariant forall i :: 0 <= i < at ==> slots[i] > slot
        {
          at := at + 1;
        }
        slots := slots[..at] + [slot] + slots[at..];
      }
    }
  }

  lemma NothingToClean(s: CacheState)
    requires s.CutOff() <= 0
    ensures s.Cleaned() == s
  {
    assert s.Cleaned().dag == s.dag;
  }

  // The walk is at current without having met block; nothing at or above block's slot is left.
  lemma NoAncestorBelow(d: Dag, block: Root, head: Root, current: Root, n: nat)
    requires Descending(d) && block in d && current in d
    requires Ancestor(d, head, n) == Some(current) && current != block
    requires forall m: nat :: PathTo(d, block, head, m) ==> m > n
    requires d[current].slot < d[block].slot
    ensures !Canonical(d, block, head)
  {
    forall m: nat | PathTo(d, block, head, m)
      ensures false
    {
      AncestorAdds(d, head, n, m - n);
      PathDescends(d, block, current, m - n);
    }
  }

  // The walk cannot leave current: it is uncached or has no header.
  lemma DeadEnd(d: Dag, block: Root, head: Root, current: Root, n: nat)
    requires Ancestor(d, head, n) == Some(current) && !HasHeader(d, current)
    requires forall m: nat :: PathTo(d, block, head, m) ==> m > n
    ensures !Canonical(d, block, head)
  {
    forall m: nat | PathTo(d, block, head, m)
      ensures false
    {
      AncestorAdds(d, head, n, m - n);
    }
  }
}
