/**
 * pool/beaconpool.go, pool/client.go, pool/clientlogic.go and pool/forks.go: the pool of clients, the
 * events that change it, the memoised forks and the round-robin scheduler.
 */
module Pools {
  import opened Base
  import opened Ancestry
  import opened CacheModel
  import opened BlockCaches
  import opened Forks
  import opened HeadForks
  import opened PoolModel
  import opened Scheduler

  class Client {
    const beaconPool: BeaconPool
    const clientIdx: nat
    const name: string
    var isOnline: bool
    var isSyncing: bool
    var isOptimistic: bool
    var custodyGroupCount: nat
    var clientType: ClientType
    var headRoot: Root
    var headSlot: Slot

    constructor (beaconPool: BeaconPool, clientIdx: nat, name: string)
      ensures this.beaconPool == beaconPool && this.clientIdx == clientIdx && this.name == name
      ensures State() == ClientState(false, false, false, ZERO_ROOT, 0)
    {
      this.beaconPool := beaconPool;
      this.clientIdx := clientIdx;
      this.name := name;
      isOnline, isSyncing, isOptimistic := false, false, false;
      custodyGroupCount := 0;
      clientType := Unspecified;
      headRoot, headSlot := ZERO_ROOT, 0;
    }

    ghost function State(): ClientState
      reads this
    {
      ClientState(isOnline, isSyncing, isOptimistic, headRoot, headSlot)
    }

    function GetStatus(): ClientStatus
      reads this
    {
      if isSyncing then Synchronizing
      else if isOptimistic then Optimistic
      else if isOnline then Online
      else Offline
    }

    method UpdateStatus(online: bool, syncing: bool, optimistic: bool, ghost at: nat)
      requires beaconPool.Roster() && beaconPool.Holds(at, this)
      modifies this`isOnline, this`isSyncing, this`isOptimistic
      modifies beaconPool`forkCache, beaconPool`clientStates, beaconPool`memo
      ensures beaconPool.Roster()
      ensures beaconPool.State() == old(beaconPool.State()).OnStatus(at, online, syncing, optimistic)
      ensures isOnline == online && isSyncing == syncing && isOptimistic == optimistic
      ensures beaconPool.forkCache ==
        if old(isSyncing) == syncing && (syncing || (old(isOptimistic) == optimistic
             && (optimistic || old(isOnline) == online)))
        then old(beaconPool.forkCache) else None
    {
      var oldStatus := GetStatus();
      SetFlags(online, syncing, optimistic, at);
      var newStatus := GetStatus();
      if oldStatus != newStatus {
        beaconPool.ResetHeadForkCache();
      }
    }

    method SetFlags(online: bool, syncing: bool, optimistic: bool, ghost at: nat)
      requires beaconPool.Roster() && beaconPool.Holds(at, this)
      modifies this`isOnline, this`isSyncing, this`isOptimistic, beaconPool`clientStates
      ensures beaconPool.Roster()
      ensures State() == old(State()).(online := online, syncing := syncing, optimistic := optimistic)
      ensures beaconPool.clientStates == old(beaconPool.clientStates)[at := State()]
    {
      isOnline := online;
      isSyncing := syncing;
      isOptimistic := optimistic;
      beaconPool.ClientChanged(at);
    }

    // A block event of this client; loaded is what the header request returns if it is made.
    method ProcessBlockEvent(root: Root, slot: Slot, loaded: Option<Header>, ghost at: nat) returns (ok: bool)
      requires beaconPool.Valid() && beaconPool.Holds(at, this)
      requires beaconPool.blockCache.Truthful(root, slot) && beaconPool.blockCache.Fits(root, loaded)
      modifies this`headRoot, this`headSlot, beaconPool`forkCache, beaconPool`clientStates, beaconPool`memo,
               beaconPool.blockCache, beaconPool.blockCache.Repr
      ensures beaconPool.Valid()
      ensures beaconPool.State() == old(beaconPool.State()).OnBlockEvent(at, root, slot, ParentOf(loaded))
      ensures ok <==>
        || loaded.Some?
        || (root in old(beaconPool.blockCache.rootMap) && old(beaconPool.blockCache.rootMap[root].header).Some?)
        || (root !in old(beaconPool.blockCache.rootMap)
            && slot + beaconPool.blockCache.followDistance < old(beaconPool.blockCache.maxSlotIdx))
      ensures ok ==> headRoot == root && headSlot == slot && beaconPool.forkCache == None
      ensures !ok ==>
        headRoot == old(headRoot) && headSlot == old(headSlot) && beaconPool.forkCache == old(beaconPool.forkCache)
    {
      assert Look(PoolSeal, 0);
      ok := beaconPool.blockCache.ReceiveBlock(root, slot, loaded);
      if ok {
        SetHead(root, slot, at);
      }
    }

    // The end of a head change: the fields, then the memo.
    method SetHead(root: Root, slot: Slot, ghost at: nat)
      requires beaconPool.Roster() && beaconPool.Holds(at, this)
      modifies this`headRoot, this`headSlot, beaconPool`forkCache, beaconPool`clientStates, beaconPool`memo
      ensures beaconPool.Roster() && headRoot == root && headSlot == slot
      ensures beaconPool.State() == old(beaconPool.State()).OnHead(at, root, slot)
    {
      headSlot := slot;
      headRoot := root;
      beaconPool.ClientChanged(at);
      beaconPool.ResetHeadForkCache();
    }

    // The result of polling this client's head.
    method SetHeader(root: Root, header: Header, ghost at: nat)
      requires beaconPool.Valid() && beaconPool.Holds(at, this)
      requires beaconPool.blockCache.Truthful(root, header.slot)
      requires beaconPool.blockCache.Fits(root, Some(header))
      modifies this`headRoot, this`headSlot, beaconPool`forkCache, beaconPool`clientStates, beaconPool`memo,
               beaconPool.blockCache, beaconPool.blockCache.Repr
      ensures beaconPool.Valid()
      ensures beaconPool.State() == old(beaconPool.State()).OnHeadPoll(at, root, header.slot, header.parentRoot)
      ensures headRoot == root
      ensures root == old(headRoot) ==>
        headSlot == old(headSlot) && beaconPool.forkCache == old(beaconPool.forkCache)
      ensures root != old(headRoot) ==> headSlot == header.slot && beaconPool.forkCache == None
    {
      assert Look(PoolSeal, 0);
      beaconPool.blockCache.StoreBlock(root, header);
      if headRoot == root {
        return;
      }
      SetHead(root, header.slot, at);
    }
  }

  class HeadFork {
    var slot: Slot
    var root: Root
    var readyClients: seq<Client>
    var allClients: seq<Client>

    constructor (root: Root, slot: Slot, client: Client)
      ensures this.root == root && this.slot == slot && allClients == [client] && readyClients == []
    {
      this.root := root;
      this.slot := slot;
      allClients := [client];
      readyClients := [];
    }
  }

  // The clients at the given positions.
  ghost predicate Members(clients: seq<Client>, positions: seq<nat>, members: seq<Client>)
  {
    && |positions| == |members|
    && forall i :: 0 <= i < |members| ==> positions[i] < |clients| && clients[positions[i]] == members[i]
  }

  ghost predicate Mirrors(clients: seq<Client>, fork: HeadFork, f: Fork)
    reads fork
  {
    && fork.root == f.root
    && fork.slot == f.slot
    && Members(clients, f.all, fork.allClients)
    && Members(clients, f.ready, fork.readyClients)
  }

  ghost predicate AllMirror(clients: seq<Client>, headForks: seq<HeadFork>, forks: seq<Fork>)
    reads headForks
  {
    |headForks| == |forks| && forall k :: 0 <= k < |forks| ==> Mirrors(clients, headForks[k], forks[k])
  }

  ghost predicate MembersAscend(forks: seq<Fork>)
  {
    forall k :: 0 <= k < |forks| ==> Ascending(forks[k].all) && Ascending(forks[k].ready)
  }

  class BeaconPool {
    const maxHeadDistance: nat
    const blockCache: BlockCache
    var clientCounter: nat
    var clients: seq<Client>
    var forkCache: Option<seq<HeadFork>>
    var rrLastIndexes: map<ClientType, nat>
    ghost var clientStates: seq<ClientState>  // the clients as values
    ghost var memo: Option<seq<Fork>>  // forkCache as a value

    // Fails on an unknown scheduler mode, and where the block cache has no window.
    static method NewBeaconPool(schedulerMode: string, followDistance: nat, maxHeadDistance: nat, ghost chain: Chain)
      returns (pool: BeaconPool?)
      requires Ordered(chain)
      ensures pool == null <==> schedulerMode !in ["", "rr", "roundrobin"] || followDistance == 0
      ensures pool != null ==>
        && fresh(pool) && pool.Valid() && pool.clients == [] && pool.rrLastIndexes == map[]
        && pool.blockCache.chain == chain && pool.blockCache.rootMap == map[]
        && pool.blockCache.followDistance == followDistance && pool.maxHeadDistance == maxHeadDistance
        && pool.State() == PoolState(Empty(followDistance), [], maxHeadDistance, None)
    {
      if schedulerMode !in ["", "rr", "roundrobin"] || followDistance == 0 {
        return null;
      }
      pool := new BeaconPool(followDistance, maxHeadDistance, chain);
    }

    constructor (followDistance: nat, maxHeadDistance: nat, ghost chain: Chain)
      requires Ordered(chain)
      ensures Valid() && clients == [] && clientCounter == 0 && rrLastIndexes == map[]
      ensures blockCache.chain == chain && blockCache.followDistance == followDistance && blockCache.rootMap == map[]
      ensures this.maxHeadDistance == maxHeadDistance
      ensures State() == PoolState(Empty(followDistance), [], maxHeadDistance, None)
    {
      this.maxHeadDistance := maxHeadDistance;
      this.blockCache := new BlockCache(followDistance, chain);
      clientCounter := 0;
      clients := [];
      forkCache := None;
      rrLastIndexes := map[];
      clientStates := [];
      memo := None;
    }

    // The pool as a value.
    ghost function State(): PoolState
      reads `clientStates, `memo, blockCache
    {
      PoolState(blockCache.State(), clientStates, maxHeadDistance, memo)
    }

    // Indexes ascend along the client list; a failed AddEndpoint leaves a gap.
    ghost predicate Listed()
      reads `clients, `clientCounter
    {
      && (forall i :: 0 <= i < |clients| ==> clients[i].clientIdx < clientCounter && clients[i].beaconPool == this)
      && (forall i, j :: 0 <= i < j < |clients| ==> clients[i].clientIdx < clients[j].clientIdx)
    }

    ghost predicate Tracked()
      reads `clients, `clientStates, clients
    {
      && |clientStates| == |clients|
      && forall i :: 0 <= i < |clients| ==> clientStates[i] == clients[i].State()
    }

    ghost predicate Memo()
      reads `clients, `forkCache, `memo, if forkCache.Some? then forkCache.value else []
    {
      match forkCache
      case None => memo == None
      case Some(headForks) =>
        memo.Some? && AllMirror(clients, headForks, memo.value) && MembersAscend(memo.value)
    }

    // The clients and the memo are as their values say.
    ghost predicate Roster()
      reads `clients, `clientCounter, `forkCache, `clientStates, `memo, clients
      reads if forkCache.Some? then forkCache.value else []
    {
      Listed() && Tracked() && Memo()
    }

    // Roster and cache invariant, behind Look.
    ghost predicate Valid()
      reads `clients, `clientCounter, `forkCache, `clientStates, `memo, clients, blockCache, blockCache.Repr
      reads if forkCache.Some? then forkCache.value else []
    {
      forall k {:trigger Look(PoolSeal, k)} :: Look(PoolSeal, k) ==> Roster() && blockCache.Valid()
    }

    ghost predicate Holds(at: nat, client: Client)
      reads `clients, `clientStates
    {
      at < |clients| == |clientStates| && clients[at] == client
    }

    // Records that the client at the given position has changed its own fields.
    ghost method ClientChanged(at: nat)
      requires at < |clients| == |clientStates|
      modifies `clientStates
      ensures clientStates == old(clientStates)[at := clients[at].State()]
    {
      clientStates := clientStates[at := clients[at].State()];
    }

    method CleanupCache()
      requires Valid()
      modifies blockCache
      ensures Valid() && State() == old(State()).OnCleanup()
      ensures forall r ::
        r in blockCache.rootMap <==>
          && r in old(blockCache.rootMap)
          && old(blockCache.rootMap)[r].slot + blockCache.followDistance >= old(blockCache.maxSlotIdx)
    {
      assert Look(PoolSeal, 0);
      blockCache.CleanupCache();
    }

    method ResetHeadForkCache()
      modifies `forkCache, `memo
      ensures forkCache == None && memo == None
    {
      forkCache := None;
      memo := None;
    }

    // newPoolClient may fail; its index is used up either way, and a memo that exists is not reset.
    method AddEndpoint(name: string, created: bool) returns (client: Client?)
      requires Roster()
      modifies `clientCounter, `clients, `clientStates
      ensures Roster() && clientCounter == old(clientCounter) + 1
      ensures client != null <==> created
      ensures !created ==> clients == old(clients) && clientStates == old(clientStates)
      ensures created ==>
        && fresh(client) && client.clientIdx == old(clientCounter) && clients == old(clients) + [client]
        && clientStates == old(clientStates) + [ClientState(false, false, false, ZERO_ROOT, 0)]
    {
      var clientIdx := clientCounter;
      clientCounter := clientCounter + 1;
      if !created {
        return null;
      }
      client := new Client(this, clientIdx, name);
      clients := clients + [client];
      clientStates := clientStates + [client.State()];
    }

    ghost function ClientNamed(name: string): (c: Option<Client>)
      reads `clients
      ensures c.None? ==> forall i :: 0 <= i < |clients| ==> clients[i].name != name
    {
      FirstNamed(clients, name)
    }

    method GetEndpointByName(name: string) returns (client: Client?)
      ensures ClientNamed(name) == if client == null then None else Some(client)
      ensures client == null ==> forall c :: c in clients ==> c.name != name
      ensures client != null ==>
        exists i :: 0 <= i < |clients| && clients[i] == client && client.name == name
          && forall j :: 0 <= j < i ==> clients[j].name != name
    {
      for i := 0 to |clients|
        invariant forall j :: 0 <= j < i ==> clients[j].name != name
        invariant FirstNamed(clients, name) == FirstNamed(clients[i..], name)
      {
        if clients[i].name == name {
          return clients[i];
        }
      }
      client := null;
    }

    // ---------- forks ----------

    method GetHeadForks() returns (headForks: seq<HeadFork>)
      requires Valid()
      modifies `forkCache, `memo
      ensures Valid() && forkCache == Some(headForks) && (old(forkCache).Some? ==> forkCache == old(forkCache))
      ensures old(State()).OnQuery(State())
    {
      assert Look(PoolSeal, 0);
      if forkCache.Some? {
        return forkCache.value;
      }
      ghost var forks;
      headForks, forks := ComputeHeadForks();
      forkCache := Some(headForks);
      memo := Some(forks);
    }

    method ComputeHeadForks() returns (headForks: seq<HeadFork>, ghost forks: seq<Fork>)
      requires Valid()
      ensures AllMirror(clients, headForks, forks) && State().HasForks(forks) && MembersAscend(forks)
    {
      assert Look(PoolSeal, 0);
      headForks, forks := GroupClients();
      forks := FillReady(headForks, forks);
      headForks, forks := SortByReady(headForks, forks);
      assert Look(CacheSeal, 0);
      AgreesDescending(blockCache.chain, blockCache.dag);
      HeadForksAscend(blockCache.dag, clientStates, maxHeadDistance, forks);
    }

    // One pass over the clients: each joins, advances or opens a fork.
    method GroupClients() returns (headForks: seq<HeadFork>, ghost forks: seq<Fork>)
      requires Tracked() && blockCache.Valid()
      ensures AllMirror(clients, headForks, forks) && Distinct(headForks) && fresh(headForks)
      ensures forks == Group(blockCache.dag, clientStates)
    {
      headForks, forks := [], [];
      for i := 0 to |clients|
        invariant AllMirror(clients, headForks, forks) && Distinct(headForks)
        invariant fresh(headForks)
        invariant forks == Group(blockCache.dag, clientStates[..i])
      {
        GroupOne(blockCache.dag, clientStates, i);
        headForks, forks := PlaceClient(headForks, forks, i);
        forall k | 0 <= k < |headForks|
          ensures fresh(headForks[k])
        {
          assert headForks[k] in headForks;
        }
      }
      assert clientStates[..|clients|] == clientStates;
    }

    method PlaceClient(headForks: seq<HeadFork>, ghost forks: seq<Fork>, i: nat)
      returns (result: seq<HeadFork>, ghost placed: seq<Fork>)
      requires Tracked() && blockCache.Valid() && i < |clients|
      requires AllMirror(clients, headForks, forks) && Distinct(headForks)
      modifies headForks
      ensures placed == Place(blockCache.dag, forks, i, clientStates[i])
      ensures AllMirror(clients, result, placed) && Distinct(result)
      ensures forall h :: h in result ==> h in headForks || fresh(h)
    {
      var client := clients[i];
      var at, advance := FindFork(headForks, forks, client.headRoot);
      if at < |headForks| {
        result := headForks;
        placed := forks[at := Join(blockCache.dag, forks[at], i, clientStates[i])];
        JoinFork(headForks[at], forks[at], i, advance);
      } else {
        var fork := new HeadFork(client.headRoot, client.headSlot, client);
        result := headForks + [fork];
        placed := forks + [Fork(client.headRoot, client.headSlot, [i], [])];
      }
    }

    // The first fork on one chain with h, and whether h is ahead of its root.
    method FindFork(headForks: seq<HeadFork>, ghost forks: seq<Fork>, h: Root) returns (at: nat, advance: bool)
      requires blockCache.Valid() && AllMirror(clients, headForks, forks)
      ensures at == FirstMatch(blockCache.dag, forks, h)
      ensures at < |forks| ==> (advance <==> !Canonical(blockCache.dag, h, forks[at].root))
    {
      at, advance := 0, false;
      while at < |headForks|
        invariant at <= |headForks|
        invariant forall k :: 0 <= k < at ==> !Comparable(blockCache.dag, h, forks[k].root)
      {
        assert Mirrors(clients, headForks[at], forks[at]);
        var below := blockCache.IsCanonicalBlock(h, headForks[at].root);
        if headForks[at].root == h || below {
          CanonicalReflexive(blockCache.dag, h);
          return;
        }
        var above := blockCache.IsCanonicalBlock(headForks[at].root, h);
        if above {
          advance := true;
          return;
        }
        at := at + 1;
      }
    }

    method JoinFork(fork: HeadFork, ghost f: Fork, i: nat, advance: bool)
      requires Tracked() && i < |clients| && Mirrors(clients, fork, f)
      requires advance <==> !Canonical(blockCache.dag, clients[i].headRoot, f.root)
      modifies fork
      ensures Mirrors(clients, fork, Join(blockCache.dag, f, i, clientStates[i]))
    {
      var client := clients[i];
      if advance {
        fork.root := client.headRoot;
        fork.slot := client.headSlot;
      }
      fork.allClients := fork.allClients + [client];
    }

    // Fills in the ready members of every fork.
    method FillReady(headForks: seq<HeadFork>, ghost forks: seq<Fork>) returns (ghost filled: seq<Fork>)
      requires Tracked() && blockCache.Valid()
      requires AllMirror(clients, headForks, forks) && Distinct(headForks)
      modifies headForks
      ensures AllMirror(clients, headForks, filled)
      ensures filled == WithReady(blockCache.dag, clientStates, maxHeadDistance, forks)
    {
      filled := forks;
      ghost var goal := WithReady(blockCache.dag, clientStates, maxHeadDistance, forks);
      for n := 0 to |headForks|
        invariant |filled| == |forks|
        invariant forall k :: 0 <= k < n ==> filled[k] == goal[k]
        invariant forall k :: n <= k < |forks| ==> filled[k] == forks[k]
        invariant AllMirror(clients, headForks, filled)
      {
        assert Mirrors(clients, headForks[n], filled[n]);
        ghost var ready := FillFork(headForks[n], forks[n]);
        filled := filled[n := forks[n].(ready := ready)];
      }
    }

    method FillFork(fork: HeadFork, ghost f: Fork) returns (ghost ready: seq<nat>)
      requires Tracked() && blockCache.Valid()
      requires Mirrors(clients, fork, f)
      modifies fork
      ensures ready == ReadyOf(blockCache.dag, clientStates, f.root, maxHeadDistance, f.all)
      ensures Mirrors(clients, fork, f.(ready := ready))
    {
      ready := [];
      fork.readyClients := [];
      for n := 0 to |fork.allClients|
        invariant fork.root == f.root && fork.slot == f.slot && Members(clients, f.all, fork.allClients)
        invariant ready == ReadyOf(blockCache.dag, clientStates, f.root, maxHeadDistance, f.all[..n])
        invariant Members(clients, ready, fork.readyClients)
      {
        var client := fork.allClients[n];
        ReadyOne(blockCache.dag, clientStates, f.root, maxHeadDistance, f.all, n);
        var isReady := CheckReady(client, fork.root, f.all[n]);
        if isReady {
          fork.readyClients := fork.readyClients + [client];
          ready := ready + [f.all[n]];
        }
      }
      assert f.all[..|f.all|] == f.all;
    }

    method CheckReady(client: Client, root: Root, ghost at: nat) returns (isReady: bool)
      requires Tracked() && blockCache.Valid() && Holds(at, client)
      ensures isReady <==> IsReady(blockCache.dag, clientStates, root, maxHeadDistance, at)
    {
      if client.GetStatus() != Online {
        return false;
      }
      var headDistance := 0;
      if root != client.headRoot {
        var _, distance := blockCache.GetBlockDistance(client.headRoot, root);
        headDistance := distance;
      } else {
        assert Look(CacheSeal, 0);
        AgreesDescending(blockCache.chain, blockCache.dag);
        CanonicalReflexive(blockCache.dag, root);
        DistanceIs(blockCache.dag, root, root, 0);
      }
      isReady := headDistance <= maxHeadDistance;
    }

    // sort.Slice: callers may rely on any permutation with descending ready counts, nothing more.
    method SortByReady(headForks: seq<HeadFork>, ghost forks: seq<Fork>)
      returns (sorted: seq<HeadFork>, ghost ordered: seq<Fork>)
      requires AllMirror(clients, headForks, forks)
      ensures AllMirror(clients, sorted, ordered)
      ensures multiset(ordered) == multiset(forks) && ByReadyCount(ordered)
    {
      sorted, ordered := [], [];
      for n := 0 to |headForks|
        invariant AllMirror(clients, sorted, ordered) && ByReadyCount(ordered)
        invariant multiset(ordered) == multiset(forks[..n])
      {
        assert Mirrors(clients, headForks[n], forks[n]);
        assert forks[..n + 1] == forks[..n] + [forks[n]];
        sorted, ordered := InsertByReady(sorted, ordered, headForks[n], forks[n]);
      }
      assert forks[..|forks|] == forks;
    }

    method InsertByReady(headForks: seq<HeadFork>, ghost forks: seq<Fork>, fork: HeadFork, ghost f: Fork)
      returns (sorted: seq<HeadFork>, ghost ordered: seq<Fork>)
      requires AllMirror(clients, headForks, forks) && ByReadyCount(forks) && Mirrors(clients, fork, f)
      ensures AllMirror(clients, sorted, ordered)
      ensures multiset(ordered) == multiset(forks) + multiset{f} && ByReadyCount(ordered)
    {
      var at := 0;
      while at < |headForks| && |headForks[at].readyClients| >= |fork.readyClients|
        invariant at <= |headForks|
        invariant forall k :: 0 <= k < at ==> |forks[k].ready| >= |f.ready|
      {
        assert Mirrors(clients, headForks[at], forks[at]);
        at := at + 1;
      }
      assert at < |headForks| ==> Mirrors(clients, headForks[at], forks[at]);
      InsertSorted(forks, at, f);
      sorted := headForks[..at] + [fork] + headForks[at..];
      ordered := forks[..at] + [f] + forks[at..];
    }

    lemma InsertSorted(ordered: seq<Fork>, at: nat, f: Fork)
      requires at <= |ordered| && ByReadyCount(ordered)
      requires forall k :: 0 <= k < at ==> |ordered[k].ready| >= |f.ready|
      requires at < |ordered| ==> |ordered[at].ready| <= |f.ready|
      ensures ByReadyCount(ordered[..at] + [f] + ordered[at..])
      ensures multiset(ordered[..at] + [f] + ordered[at..]) == multiset(ordered) + multiset{f}
    {
      assert ordered == ordered[..at] + ordered[at..];
    }

    // The clients a call may be given: the ready members of the canonical fork, the first one.
    ghost function ReadyList(): seq<Client>
      reads `forkCache, if forkCache.Some? then forkCache.value else []
    {
      if forkCache.Some? && forkCache.value != [] then forkCache.value[0].readyClients else []
    }

    method GetCanonicalFork() returns (fork: HeadFork?)
      requires Valid()
      modifies `forkCache, `memo
      ensures Valid() && old(State()).OnQuery(State())
      ensures forkCache.Some? && (old(forkCache).Some? ==> forkCache == old(forkCache))
      ensures ReadyList() == (if fork == null then [] else fork.readyClients) && IndexAscending(ReadyList())
    {
      var forks := GetHeadForks();
      assert Look(PoolSeal, 0);
      ReadyAscending();
      fork := if |forks| == 0 then null else forks[0];
    }

    lemma ReadyAscending()
      requires Listed() && Memo()
      ensures IndexAscending(ReadyList())
    {
      if forkCache.Some? && forkCache.value != [] {
        assert Mirrors(clients, forkCache.value[0], memo.value[0]);
      }
    }

    // The client is online, and at most maxHeadDistance parent steps behind a head that no other is ahead of.
    ghost predicate OnTop(client: Client)
      reads client, `clientStates, blockCache
    {
      && client.isOnline && !client.isSyncing && !client.isOptimistic
      && exists r: Root, n: nat ::
           && IsMaximalHead(blockCache.dag, clientStates, r)
           && n <= maxHeadDistance && PathTo(blockCache.dag, client.headRoot, r, n)
    }

    // While the memo is what a recomputation gives: a fork's members are clients on its chain, its root is a client's
    // head that no other is ahead of, and those ready are the online members that are close enough to the root.
    lemma ForkInFull(k: nat, client: Client)
      requires Valid() && State().Coherent() && forkCache.Some? && k < |forkCache.value|
      ensures var fork := forkCache.value[k];
              && (exists c :: c in clients && c.headRoot == fork.root && c.headSlot == fork.slot)
              && (forall c :: c in clients && Canonical(blockCache.dag, fork.root, c.headRoot) ==>
                    c.headRoot == fork.root)
              && (client in fork.allClients ==>
                    client in clients && Canonical(blockCache.dag, client.headRoot, fork.root))
              && (client in fork.readyClients <==>
                    && client in fork.allClients
                    && client.isOnline && !client.isSyncing && !client.isOptimistic
                    && exists n: nat :: n <= maxHeadDistance && PathTo(blockCache.dag, client.headRoot, fork.root, n))
              && |forkCache.value[0].readyClients| >= |fork.readyClients|
    {
      assert Look(PoolSeal, 0) && Look(CacheSeal, 0);
      AgreesDescending(blockCache.chain, blockCache.dag);
      HeadForksSound(blockCache.dag, clientStates, maxHeadDistance, memo.value);
      assert Mirrors(clients, forkCache.value[0], memo.value[0]);
      ForkAsValue(forkCache.value[k], memo.value[k], client);
    }

    // The clients that may answer are those of a fork with the most ready ones.
    lemma FullestAnswers(k: nat)
      requires Valid() && State().Coherent() && forkCache.Some? && k < |forkCache.value|
      ensures forkCache.value[0].readyClients == ReadyList()
      ensures |ReadyList()| >= |forkCache.value[k].readyClients|
    {
      assert Look(PoolSeal, 0) && Look(CacheSeal, 0);
      AgreesDescending(blockCache.chain, blockCache.dag);
      HeadForksSound(blockCache.dag, clientStates, maxHeadDistance, memo.value);
      assert Mirrors(clients, forkCache.value[0], memo.value[0]) && Mirrors(clients, forkCache.value[k], memo.value[k]);
    }

    lemma ForkAsValue(fork: HeadFork, f: Fork, client: Client)
      requires Listed() && Tracked() && Mirrors(clients, fork, f)
      requires WellFormed(blockCache.dag, clientStates, f)
      requires ReadyExact(blockCache.dag, clientStates, f, maxHeadDistance)
      requires IsMaximalHead(blockCache.dag, clientStates, f.root)
      ensures exists c :: c in clients && c.headRoot == fork.root && c.headSlot == fork.slot
      ensures forall c :: c in clients && Canonical(blockCache.dag, fork.root, c.headRoot) ==> c.headRoot == fork.root
      ensures client in fork.allClients ==>
        client in clients && Canonical(blockCache.dag, client.headRoot, fork.root)
      ensures client in fork.readyClients <==>
        && client in fork.allClients
        && client.isOnline && !client.isSyncing && !client.isOptimistic
        && exists n: nat :: n <= maxHeadDistance && PathTo(blockCache.dag, client.headRoot, fork.root, n)
    {
      var m :|
        m in f.all && m < |clientStates| && clientStates[m].headRoot == f.root && clientStates[m].headSlot == f.slot;
      assert clients[m] in clients;
      forall c | c in clients && Canonical(blockCache.dag, fork.root, c.headRoot)
        ensures c.headRoot == fork.root
      {
        var j :| 0 <= j < |clients| && clients[j] == c;
        assert clientStates[j].headRoot == c.headRoot;
      }
      if client in fork.allClients {
        var i :| 0 <= i < |fork.allClients| && fork.allClients[i] == client;
        assert f.all[i] in f.all;
        assert f.all[i] in f.ready ==> client in fork.readyClients;
      }
      if client in fork.readyClients {
        var i :| 0 <= i < |fork.readyClients| && fork.readyClients[i] == client;
        assert f.ready[i] in f.ready && f.ready[i] in f.all;
      }
    }

    // ... and every client is a member of one fork, and of no other.
    lemma OneForkEach(client: Client) returns (k: nat)
      requires Valid() && State().Coherent() && forkCache.Some? && client in clients
      ensures k < |forkCache.value|
      ensures forall j :: 0 <= j < |forkCache.value| ==> (client in forkCache.value[j].allClients <==> j == k)
    {
      assert Look(PoolSeal, 0) && Look(CacheSeal, 0);
      AgreesDescending(blockCache.chain, blockCache.dag);
      HeadForksSound(blockCache.dag, clientStates, maxHeadDistance, memo.value);
      var m :| 0 <= m < |clients| && clients[m] == client;
      k := ForkOfClient(forkCache.value, memo.value, m);
    }

    lemma ForkOfClient(headForks: seq<HeadFork>, forks: seq<Fork>, m: nat) returns (k: nat)
      requires Listed() && AllMirror(clients, headForks, forks) && m < |clients|
      requires Placed(forks, m) && Disjoint(forks)
      ensures k < |headForks|
      ensures forall j :: 0 <= j < |headForks| ==> (clients[m] in headForks[j].allClients <==> j == k)
    {
      k :| 0 <= k < |forks| && m in forks[k].all;
      forall j | 0 <= j < |headForks|
        ensures clients[m] in headForks[j].allClients <==> j == k
      {
        assert Mirrors(clients, headForks[j], forks[j]);
        MemberIsPosition(headForks[j].allClients, forks[j].all, m);
      }
    }

    lemma MemberIsPosition(members: seq<Client>, positions: seq<nat>, m: nat)
      requires Listed() && Members(clients, positions, members) && m < |clients|
      ensures clients[m] in members <==> m in positions
    {
      if clients[m] in members {
        var i :| 0 <= i < |members| && members[i] == clients[m];
        assert positions[i] in positions;
      }
      if m in positions {
        var i :| 0 <= i < |positions| && positions[i] == m;
        assert members[i] in members;
      }
    }

    // While the memo is what a recomputation gives, whoever may answer a call is on top.
    lemma ReadyOnTop(client: Client)
      requires Valid() && State().Coherent() && client in ReadyList()
      ensures OnTop(client)
    {
      assert Look(PoolSeal, 0) && Look(CacheSeal, 0);
      var fork, f := forkCache.value[0], memo.value[0];
      AgreesDescending(blockCache.chain, blockCache.dag);
      HeadForksSound(blockCache.dag, clientStates, maxHeadDistance, memo.value);
      assert Mirrors(clients, fork, f) && ReadyExact(blockCache.dag, clientStates, f, maxHeadDistance);
      var j :| 0 <= j < |fork.readyClients| && fork.readyClients[j] == client;
      var m := f.ready[j];
      assert m in f.ready && Follows(blockCache.dag, clientStates, f, maxHeadDistance, m);
      var n: nat :| n <= maxHeadDistance && PathTo(blockCache.dag, clientStates[m].headRoot, f.root, n);
      assert IsRoot(memo.value, f.root);
    }

    lemma ReadyListAscends()
      requires Valid()
      ensures IndexAscending(ReadyList())
    {
      assert Look(PoolSeal, 0);
      ReadyAscending();
    }

    method IsClientReady(client: Client?) returns (ready: bool)
      requires Valid()
      modifies `forkCache, `memo
      ensures Valid() && (State() == old(State()) || old(State()).OnQuery(State()))
      ensures old(forkCache).Some? ==> forkCache == old(forkCache)
      ensures client == null ==> !ready
      ensures client != null ==> forkCache.Some? && old(State()).OnQuery(State()) && (ready <==> client in ReadyList())
    {
      if client == null {
        return false;
      }
      var canonicalFork := GetCanonicalFork();
      if canonicalFork == null {
        return false;
      }
      ready := client in canonicalFork.readyClients;
    }

    // ---------- scheduling ----------

    // Picks the eligible client after the type's cursor, wrapping around, and moves the cursor there.
    method RunClientScheduler(readyClients: seq<Client>, clientType: ClientType, minCgc: nat) returns (client: Client?)
      requires IndexAscending(readyClients)
      modifies `rrLastIndexes
      ensures client != null ==> client in readyClients && Suits(client, clientType, minCgc)
      ensures client == null ==> forall c :: c in readyClients ==> !Suits(c, clientType, minCgc)
      ensures var call := Call(clientType, EligibleAmong(readyClients, clientType, minCgc), IndexOf(client));
              Answers(old(rrLastIndexes), call) && rrLastIndexes == After(old(rrLastIndexes), call)
    {
      client := ChooseClient(readyClients, clientType, minCgc, CursorOf(rrLastIndexes, clientType));
      if client != null {
        rrLastIndexes := rrLastIndexes[clientType := client.clientIdx];
      }
    }

    method ChooseClient(readyClients: seq<Client>, clientType: ClientType, minCgc: nat, cursor: nat)
      returns (client: Client?)
      requires IndexAscending(readyClients)
      ensures client != null ==> client in readyClients && Suits(client, clientType, minCgc)
      ensures client == null ==> forall c :: c in readyClients ==> !Suits(c, clientType, minCgc)
      ensures client != null ==> forall c :: c in readyClients && Suits(c, clientType, minCgc) ==>
        if client.clientIdx > cursor then c.clientIdx > cursor ==> client.clientIdx <= c.clientIdx
        else c.clientIdx <= cursor && client.clientIdx <= c.clientIdx
      ensures IsPick(EligibleAmong(readyClients, clientType, minCgc), cursor, IndexOf(client))
    {
      var candidates := FilterByCgc(readyClients, minCgc);
      client := NextClient(candidates, clientType, cursor);
      ghost var eligible := EligibleAmong(readyClients, clientType, minCgc);
      if client != null {
        assert client.clientIdx in eligible;
        FollowsCursor(eligible, cursor, client.clientIdx);
      }
    }

    lemma FollowsCursor(eligible: set<nat>, cursor: nat, p: nat)
      requires p in eligible
      requires forall x :: x in eligible ==>
        if p > cursor then x > cursor ==> p <= x else x <= cursor && p <= x
      ensures IsNext(eligible, cursor, p)
    {
    }

    // The first client of the type after the cursor; if there is none, the first of the type.
    method NextClient(candidates: seq<Client>, clientType: ClientType, cursor: nat) returns (client: Client?)
      requires IndexAscending(candidates)
      ensures client == null ==> forall c :: c in candidates ==> !Suits(c, clientType, 0)
      ensures client != null ==>
        && client in candidates && Suits(client, clientType, 0)
        && forall c :: c in candidates && Suits(c, clientType, 0) ==>
             if client.clientIdx > cursor then c.clientIdx > cursor ==> client.clientIdx <= c.clientIdx
             else c.clientIdx <= cursor && client.clientIdx <= c.clientIdx
    {
      var firstReadyClient: Client? := null;
      for n := 0 to |candidates|
        invariant firstReadyClient == null ==> forall k :: 0 <= k < n ==> !Suits(candidates[k], clientType, 0)
        invariant firstReadyClient != null ==>
          && firstReadyClient in candidates && Suits(firstReadyClient, clientType, 0)
          && forall k :: 0 <= k < |candidates| && Suits(candidates[k], clientType, 0) ==>
               firstReadyClient.clientIdx <= candidates[k].clientIdx
        invariant forall k :: 0 <= k < n && Suits(candidates[k], clientType, 0) ==> candidates[k].clientIdx <= cursor
      {
        var candidate := candidates[n];
        if clientType != Unspecified && clientType != candidate.clientType {
          continue;
        }
        if firstReadyClient == null {
          firstReadyClient := candidate;
        }
        if candidate.clientIdx > cursor {
          return candidate;
        }
      }
      return firstReadyClient;
    }

    method FilterByCgc(readyClients: seq<Client>, minCgc: nat) returns (filtered: seq<Client>)
      requires IndexAscending(readyClients)
      ensures IndexAscending(filtered)
      ensures forall c :: c in filtered <==> c in readyClients && c.custodyGroupCount >= minCgc
    {
      if minCgc == 0 {
        return readyClients;
      }
      filtered := [];
      for n := 0 to |readyClients|
        invariant IndexAscending(filtered)
        invariant forall c :: c in filtered <==> c in readyClients[..n] && c.custodyGroupCount >= minCgc
      {
        if readyClients[n].custodyGroupCount >= minCgc {
          assert forall c :: c in filtered ==> c.clientIdx < readyClients[n].clientIdx;
          filtered := filtered + [readyClients[n]];
        }
      }
    }

    // A nil answer means that no ready client suits; otherwise the choice is ready and suits.
    method GetReadyEndpoint(clientType: ClientType, minCgc: nat) returns (client: Client?)
      requires Valid()
      modifies `forkCache, `memo, `rrLastIndexes
      ensures Valid() && old(State()).OnQuery(State()) && (old(forkCache).Some? ==> forkCache == old(forkCache))
      ensures client == null ==>
        && rrLastIndexes == old(rrLastIndexes)
        && forall c :: c in ReadyList() ==>
             (clientType != Unspecified && c.clientType != clientType) || c.custodyGroupCount < minCgc
      ensures client != null ==>
        && rrLastIndexes == old(rrLastIndexes)[clientType := client.clientIdx]
        && client in ReadyList() && client.custodyGroupCount >= minCgc
        && (clientType == Unspecified || client.clientType == clientType)
      ensures client != null ==>
        var cursor := if clientType in old(rrLastIndexes) then old(rrLastIndexes)[clientType] else 0;
        forall c ::
          && c in ReadyList() && c.custodyGroupCount >= minCgc
          && (clientType == Unspecified || c.clientType == clientType)
          ==> if client.clientIdx > cursor then c.clientIdx > cursor ==> client.clientIdx <= c.clientIdx
              else c.clientIdx <= cursor && client.clientIdx <= c.clientIdx
      ensures var call := Call(clientType, EligibleAmong(ReadyList(), clientType, minCgc), IndexOf(client));
              Answers(old(rrLastIndexes), call) && rrLastIndexes == After(old(rrLastIndexes), call)
      ensures old(State().Coherent()) ==> State().Coherent() && (client != null ==> OnTop(client))
    {
      ghost var before := State();
      ghost var cursors := rrLastIndexes;
      client := ScheduleReady(clientType, minCgc);
      AnswerOnTop(before, client);
      ReadyListAscends();
      PickInFull(ReadyList(), clientType, minCgc, cursors, client, rrLastIndexes);
    }

    // What the scheduler's call says of the clients: the answer suits, and follows the cursor around the ring of
    // those that do.
    lemma PickInFull(ready: seq<Client>, clientType: ClientType, minCgc: nat, before: Cursors, client: Client?,
                     after: Cursors)
      requires IndexAscending(ready) && (client != null ==> client in ready)
      requires var call := Call(clientType, EligibleAmong(ready, clientType, minCgc), IndexOf(client));
               Answers(before, call) && after == After(before, call)
      ensures client == null ==>
        && after == before
        && forall c :: c in ready ==>
             (clientType != Unspecified && c.clientType != clientType) || c.custodyGroupCount < minCgc
      ensures client != null ==>
        && after == before[clientType := client.clientIdx]
        && client.custodyGroupCount >= minCgc && (clientType == Unspecified || client.clientType == clientType)
      ensures client != null ==>
        var cursor := if clientType in before then before[clientType] else 0;
        forall c ::
          && c in ready && c.custodyGroupCount >= minCgc
          && (clientType == Unspecified || c.clientType == clientType)
          ==> if client.clientIdx > cursor then c.clientIdx > cursor ==> client.clientIdx <= c.clientIdx
              else c.clientIdx <= cursor && client.clientIdx <= c.clientIdx
    {
      var eligible := EligibleAmong(ready, clientType, minCgc);
      forall c | c in ready && Suits(c, clientType, minCgc)
        ensures c.clientIdx in eligible
      {
      }
      if client != null {
        var c :| c in ready && Suits(c, clientType, minCgc) && c.clientIdx == client.clientIdx;
        assert c == client;
      }
    }

    method ScheduleReady(clientType: ClientType, minCgc: nat) returns (client: Client?)
      requires Valid()
      modifies `forkCache, `memo, `rrLastIndexes
      ensures Valid() && old(State()).OnQuery(State()) && (old(forkCache).Some? ==> forkCache == old(forkCache))
      ensures client != null ==> client in ReadyList()
      ensures var call := Call(clientType, EligibleAmong(ReadyList(), clientType, minCgc), IndexOf(client));
              Answers(old(rrLastIndexes), call) && rrLastIndexes == After(old(rrLastIndexes), call)
    {
      var canonicalFork := GetCanonicalFork();
      ghost var after, ready := State(), ReadyList();
      client := null;
      if canonicalFork != null && |canonicalFork.readyClients| > 0 {
        var readyClients := canonicalFork.readyClients;
        client := RunClientScheduler(readyClients, clientType, minCgc);
      }
      assert ReadyList() == ready && State() == after;
    }

    lemma AnswerOnTop(before: PoolState, client: Client?)
      requires Valid() && before.OnQuery(State()) && (client != null ==> client in ReadyList())
      ensures before.Coherent() ==> State().Coherent() && (client != null ==> OnTop(client))
    {
      if before.Coherent() {
        QueryKeepsCoherent(before, State());
        if client != null {
          ReadyOnTop(client);
        }
      }
    }
  }

  lemma HeadForksAscend(d: Dag, cs: seq<ClientState>, maxDist: nat, forks: seq<Fork>)
    requires Descending(d) && IsHeadForks(d, cs, maxDist, forks)
    ensures MembersAscend(forks)
  {
    HeadForksSound(d, cs, maxDist, forks);
    forall k | 0 <= k < |forks|
      ensures Ascending(forks[k].all) && Ascending(forks[k].ready)
    {
      assert WellFormed(d, cs, forks[k]) && ReadyExact(d, cs, forks[k], maxDist);
    }
  }

  // The first client of the list with the name.
  ghost function FirstNamed(cs: seq<Client>, name: string): (c: Option<Client>)
    ensures c.None? ==> forall i :: 0 <= i < |cs| ==> cs[i].name != name
    ensures c.Some? ==> c.value in cs && c.value.name == name
  {
    if cs == [] then None
    else if cs[0].name == name then Some(cs[0])
    else FirstNamed(cs[1..], name)
  }

  ghost predicate IndexAscending(cs: seq<Client>)
  {
    forall i, j :: 0 <= i < j < |cs| ==> cs[i].clientIdx < cs[j].clientIdx
  }

  // The client has the type asked for, if any, and serves enough custody groups.
  ghost predicate Suits(client: Client, clientType: ClientType, minCgc: nat)
    reads client
  {
    && (clientType == Unspecified || client.clientType == clientType)
    && client.custodyGroupCount >= minCgc
  }

  ghost function EligibleAmong(cs: seq<Client>, clientType: ClientType, minCgc: nat): set<nat>
    reads cs
  {
    set c | c in cs && Suits(c, clientType, minCgc) :: c.clientIdx
  }

  ghost function IndexOf(client: Client?): Option<nat>
  {
    if client == null then None else Some(client.clientIdx)
  }
}
