/**
 * The pool as a state machine: what block events, head polls, status updates, clean-ups and queries do
 * to the block cache, the clients and the memoised forks, and why the memo stays right.
 */
module PoolModel {
  import opened Base
  import opened Ancestry
  import opened CacheModel
  import opened Forks
  import opened HeadForks

  datatype PoolState = PoolState(
    cache: CacheState,
    clients: seq<ClientState>,
    maxDist: nat,
    forks: Option<seq<Fork>>)
  {
    ghost predicate HasForks(fs: seq<Fork>)
    {
      IsHeadForks(cache.dag, clients, maxDist, fs)
    }

    // A memo, if there is one, is what a recomputation would give, up to the order of ties.
    ghost predicate Coherent()
    {
      match forks
      case None => true
      case Some(fs) => HasForks(fs)
    }

    function OnHead(i: nat, root: Root, slot: Slot): PoolState
      requires i < |clients|
    {
      this.(clients := clients[i := clients[i].(headRoot := root, headSlot := slot)], forks := None)
    }

    // A block event of client i; header is the parent root the header request yields if it is made.
    function OnBlockEvent(i: nat, root: Root, slot: Slot, header: Option<Root>): PoolState
      requires i < |clients|
    {
      var added := cache.Added(root, slot);
      if root !in added.dag || HasHeader(added.dag, root) then this.(cache := added).OnHead(i, root, slot)
      else if header.Some? then this.(cache := added.WithHeader(root, header.value)).OnHead(i, root, slot)
      else this.(cache := added)
    }

    // Client i reports its head together with the header.
    function OnHeadPoll(i: nat, root: Root, slot: Slot, parent: Root): PoolState
      requires i < |clients|
    {
      var added := cache.Added(root, slot);
      var stored := if root in added.dag then added.WithHeader(root, parent) else added;
      if clients[i].headRoot == root then this.(cache := stored)
      else this.(cache := stored).OnHead(i, root, slot)
    }

    function OnStatus(i: nat, online: bool, syncing: bool, optimistic: bool): PoolState
      requires i < |clients|
    {
      var c := clients[i].(online := online, syncing := syncing, optimistic := optimistic);
      this.(clients := clients[i := c], forks := if c.Status() == clients[i].Status() then forks else None)
    }

    function OnCleanup(): PoolState
    {
      this.(cache := cache.Cleaned())
    }

    // Answered from the memo, or recomputed and memoised.
    ghost predicate OnQuery(after: PoolState)
    {
      match forks
      case Some(_) => after == this
      case None => after.forks.Some? && after == this.(forks := after.forks) && HasForks(after.forks.value)
    }
  }

  datatype Event =
    | BlockEvent(i: nat, root: Root, slot: Slot, header: Option<Root>)
    | HeadPoll(i: nat, root: Root, slot: Slot, parent: Root)
    | StatusUpdate(i: nat, online: bool, syncing: bool, optimistic: bool)
    | Cleanup
    | Query

  // The event names a client, and reports blocks as the chain has them.
  ghost predicate Truthful(chain: Chain, p: PoolState, e: Event)
  {
    match e
    case BlockEvent(i, root, slot, header) =>
      && i < |p.clients| && root in chain && slot == chain[root].slot
      && (header.Some? ==> header.value == chain[root].parent)
    case HeadPoll(i, root, slot, parent) =>
      i < |p.clients| && root in chain && slot == chain[root].slot && parent == chain[root].parent
    case StatusUpdate(i, _, _, _) => i < |p.clients|
    case Cleanup => true
    case Query => true
  }

  ghost predicate Step(chain: Chain, p: PoolState, e: Event, q: PoolState)
  {
    && Truthful(chain, p, e)
    && match e
       case BlockEvent(i, root, slot, header) => q == p.OnBlockEvent(i, root, slot, header)
       case HeadPoll(i, root, slot, parent) => q == p.OnHeadPoll(i, root, slot, parent)
       case StatusUpdate(i, online, syncing, optimistic) => q == p.OnStatus(i, online, syncing, optimistic)
       case Cleanup => q == p.OnCleanup()
       case Query => p.OnQuery(q)
  }

  // ---------- invariant ----------

  // A head that is cached has its header; one that is not cached can never be cached again.
  ghost predicate HeadSettled(chain: Chain, s: CacheState, h: Root)
  {
    || HasHeader(s.dag, h)
    || (h !in s.dag && (h in chain ==> s.Refuses(chain[h].slot)))
  }

  ghost predicate Known(chain: Chain, p: PoolState)
  {
    match p
    case PoolState(cache, clients, _, _) =>
      && Ordered(chain)
      && Agrees(chain, cache.dag)
      && forall i :: 0 <= i < |clients| ==>
           HeadSettled(chain, cache, clients[i].headRoot) && HeadTrue(chain, clients[i])
  }

  // A client's head has its slot in the chain; a client that has not reported yet has the zero root.
  ghost predicate HeadTrue(chain: Chain, c: ClientState)
  {
    if c.headRoot == ZERO_ROOT then c.headSlot == 0
    else c.headRoot in chain && c.headSlot == chain[c.headRoot].slot
  }

  lemma AddedSettles(chain: Chain, s: CacheState, root: Root, h: Root)
    requires root in chain && Agrees(chain, s.dag) && HeadSettled(chain, s, h)
    ensures HeadSettled(chain, s.Added(root, chain[root].slot), h)
  {
  }

  // After a block was offered to the cache, with its header if it is cached, a client may take it as its head.
  lemma DeliveredSettles(chain: Chain, s: CacheState, root: Root)
    requires root in chain && Agrees(chain, s.dag)
    ensures var t := s.Added(root, chain[root].slot);
            && Agrees(chain, t.dag)
            && (root !in t.dag ==> HeadSettled(chain, t, root))
            && (root in t.dag ==>
                  var u := t.WithHeader(root, chain[root].parent);
                  && Agrees(chain, u.dag) && HeadSettled(chain, u, root)
                  && forall h :: HeadSettled(chain, t, h) ==> HeadSettled(chain, u, h))
  {
  }

  lemma CleanedSettles(chain: Chain, s: CacheState, h: Root)
    requires Agrees(chain, s.dag) && HeadSettled(chain, s, h)
    ensures Agrees(chain, s.Cleaned().dag) && HeadSettled(chain, s.Cleaned(), h)
  {
  }

  lemma KnownByStep(chain: Chain, p: PoolState, e: Event, q: PoolState)
    requires Known(chain, p) && Step(chain, p, e, q)
    ensures Known(chain, q)
  {
    match e
    case BlockEvent(_, root, _, _) =>
      KnownByBlock(chain, p, root, q);
    case HeadPoll(_, root, _, _) =>
      KnownByBlock(chain, p, root, q);
    case StatusUpdate(_, _, _, _) =>
    case Cleanup =>
      forall h | HeadSettled(chain, p.cache, h)
        ensures Agrees(chain, q.cache.dag) && HeadSettled(chain, q.cache, h)
      {
        CleanedSettles(chain, p.cache, h);
      }
    case Query =>
  }

  lemma KnownByBlock(chain: Chain, p: PoolState, root: Root, q: PoolState)
    requires Known(chain, p) && root in chain
    requires var t := p.cache.Added(root, chain[root].slot);
             || (q.cache == t && root !in t.dag)
             || (q.cache == t && HasHeader(t.dag, root))
             || (q.cache == t && q.clients == p.clients)
             || (root in t.dag && q.cache == t.WithHeader(root, chain[root].parent))
    requires |q.clients| == |p.clients|
    requires forall j :: 0 <= j < |p.clients| ==>
      || (q.clients[j].headRoot == p.clients[j].headRoot && q.clients[j].headSlot == p.clients[j].headSlot)
      || (q.clients[j].headRoot == root && q.clients[j].headSlot == chain[root].slot)
    ensures Known(chain, q)
  {
    DeliveredSettles(chain, p.cache, root);
    forall h | HeadSettled(chain, p.cache, h)
      ensures HeadSettled(chain, q.cache, h)
    {
      AddedSettles(chain, p.cache, root, h);
    }
  }

  // ---------- what leaves the forks as they are ----------

  // A header-less new block is no client's head, so it changes no path between heads.
  lemma NewBlockKeepsOrder(chain: Chain, p: PoolState, root: Root)
    requires Known(chain, p) && root in chain
    ensures SameOrder(p.cache.dag, p.cache.Added(root, chain[root].slot).dag, p.clients)
  {
    var d := p.cache.dag;
    var slot := chain[root].slot;
    if root !in d && !p.cache.Refuses(slot) {
      forall a, b | IsHead(p.clients, a) && IsHead(p.clients, b)
        ensures SamePaths(d, d[root := Node(slot, None)], a, b)
      {
        forall n: nat
          ensures PathTo(d, a, b, n) <==> PathTo(d[root := Node(slot, None)], a, b, n)
        {
          NewBlockTransparent(d, root, slot, a, b, n);
        }
      }
    }
  }

  ghost predicate SameClient(a: ClientState, b: ClientState)
  {
    a.headRoot == b.headRoot && a.headSlot == b.headSlot && a.Status() == b.Status()
  }

  ghost predicate SameClients(a: seq<ClientState>, b: seq<ClientState>)
  {
    |a| == |b| && forall i :: 0 <= i < |a| ==> SameClient(a[i], b[i])
  }

  lemma {:induction false} GroupOfSameClients(d: Dag, a: seq<ClientState>, b: seq<ClientState>)
    requires SameClients(a, b)
    ensures Group(d, a) == Group(d, b)
    decreases |a|
  {
    if a != [] {
      var n := |a| - 1;
      GroupOfSameClients(d, a[..n], b[..n]);
      assert SameClient(a[n], b[n]);
    }
  }

  lemma {:induction false} ReadyOfSameClients(d: Dag, a: seq<ClientState>, b: seq<ClientState>, root: Root,
                                              maxDist: nat, all: seq<nat>)
    requires SameClients(a, b)
    ensures ReadyOf(d, a, root, maxDist, all) == ReadyOf(d, b, root, maxDist, all)
    decreases |all|
  {
    if all != [] {
      var n := |all| - 1;
      ReadyOfSameClients(d, a, b, root, maxDist, all[..n]);
      assert all[n] < |a| ==> SameClient(a[all[n]], b[all[n]]);
    }
  }

  lemma ForksOfSameClients(d: Dag, a: seq<ClientState>, b: seq<ClientState>, maxDist: nat)
    requires SameClients(a, b)
    ensures Recomputed(d, a, maxDist) == Recomputed(d, b, maxDist)
  {
    GroupOfSameClients(d, a, b);
    var g := Group(d, a);
    forall k | 0 <= k < |g|
      ensures ReadyOf(d, a, g[k].root, maxDist, g[k].all) == ReadyOf(d, b, g[k].root, maxDist, g[k].all)
    {
      ReadyOfSameClients(d, a, b, g[k].root, maxDist, g[k].all);
    }
    assert Recomputed(d, a, maxDist) == Recomputed(d, b, maxDist);
  }

  // Polling the head a client already has changes nothing in the cache.
  lemma KnownHeadPoll(chain: Chain, p: PoolState, i: nat, root: Root)
    requires Known(chain, p) && i < |p.clients| && p.clients[i].headRoot == root && root in chain
    ensures p.OnHeadPoll(i, root, chain[root].slot, chain[root].parent) == p
  {
    assert HeadSettled(chain, p.cache, root);
    if root in p.cache.dag {
      assert p.cache.dag[root] == Node(chain[root].slot, Some(chain[root].parent));
    }
  }

  // ---------- clean-up ----------

  // Some client is on a block that the clean-up evicts, and another on a descendant of it.
  ghost predicate Severs(p: PoolState)
  {
    exists a, b :: Severed(p, a, b)
  }

  ghost predicate Severed(p: PoolState, a: Root, b: Root)
  {
    && IsHead(p.clients, a) && IsHead(p.clients, b) && a != b
    && a in p.cache.dag && a !in p.cache.Cleaned().dag
    && Canonical(p.cache.dag, a, b)
  }

  lemma EvictedHasNoPath(d: Dag, minSlot: int, a: Root, b: Root, n: nat)
    requires Descending(d) && a !in From(d, minSlot)
    requires a in d ==> a == b || !Canonical(d, a, b)
    ensures PathTo(d, a, b, n) <==> PathTo(From(d, minSlot), a, b, n)
  {
    if a == b && PathTo(d, a, b, n) {
      CanonicalReflexive(d, a);
      PathUnique(d, a, a, n, 0);
    }
  }

  lemma HarmlessCleanup(p: PoolState)
    requires Descending(p.cache.dag) && !Severs(p)
    ensures SameOrder(p.cache.dag, p.cache.Cleaned().dag, p.clients)
  {
    var d, cut := p.cache.dag, p.cache.CutOff();
    forall a, b | IsHead(p.clients, a) && IsHead(p.clients, b)
      ensures SamePaths(d, From(d, cut), a, b)
    {
      assert !Severed(p, a, b);
      forall n: nat
        ensures PathTo(d, a, b, n) <==> PathTo(From(d, cut), a, b, n)
      {
        if a in From(d, cut) {
          EvictionTransparent(d, cut, a, b, n);
        } else {
          EvictedHasNoPath(d, cut, a, b, n);
        }
      }
    }
  }

  // An evicted head becomes maximal, whoever descends from it.
  lemma EvictedHeadIsMaximal(d: Dag, clients: seq<ClientState>, a: Root)
    requires IsHead(clients, a) && a !in d
    ensures IsMaximalHead(d, clients, a)
  {
    forall j | 0 <= j < |clients| && Canonical(d, a, clients[j].headRoot)
      ensures clients[j].headRoot == a
    {
      var n: nat :| PathTo(d, a, clients[j].headRoot, n);
    }
  }

  // The mark a severing clean-up leaves: a client's head that is cached no more and leads no memoised fork.
  ghost predicate Stale(p: PoolState)
  {
    match p
    case PoolState(cache, clients, _, forks) =>
      forks.Some? && exists h :: IsHead(clients, h) && h !in cache.dag && !IsRoot(forks.value, h)
  }

  lemma StaleIsIncoherent(chain: Chain, p: PoolState)
    requires Known(chain, p) && Stale(p)
    ensures !p.Coherent()
  {
    if p.Coherent() {
      var h :| IsHead(p.clients, h) && h !in p.cache.dag && !IsRoot(p.forks.value, h);
      AgreesDescending(chain, p.cache.dag);
      HeadForksSound(p.cache.dag, p.clients, p.maxDist, p.forks.value);
      EvictedHeadIsMaximal(p.cache.dag, p.clients, h);
      assert false;
    }
  }

  lemma SeveringLeavesStale(chain: Chain, p: PoolState)
    requires Known(chain, p) && p.forks.Some? && p.Coherent() && Severs(p)
    ensures Stale(p.OnCleanup())
  {
    var a, b :| Severed(p, a, b);
    AgreesDescending(chain, p.cache.dag);
    HeadForksSound(p.cache.dag, p.clients, p.maxDist, p.forks.value);
    assert !IsMaximalHead(p.cache.dag, p.clients, a);
  }

  // The memo outlives a clean-up exactly when no evicted head has another client's head above it.
  lemma CleanupCoherentIff(chain: Chain, p: PoolState)
    requires Known(chain, p) && p.forks.Some? && p.Coherent()
    ensures p.OnCleanup().Coherent() <==> !Severs(p)
  {
    if Severs(p) {
      SeveringLeavesStale(chain, p);
      KnownByStep(chain, p, Event.Cleanup, p.OnCleanup());
      StaleIsIncoherent(chain, p.OnCleanup());
    } else {
      AgreesDescending(chain, p.cache.dag);
      HarmlessCleanup(p);
      SameForks(p.cache.dag, p.cache.Cleaned().dag, p.clients, p.maxDist);
    }
  }

  // ---------- every run ----------

  ghost predicate Harmless(p: PoolState, e: Event)
  {
    e.Cleanup? ==> p.forks.None? || !Severs(p)
  }

  lemma QueryKeepsCoherent(p: PoolState, q: PoolState)
    requires p.OnQuery(q) && p.Coherent()
    ensures q.Coherent()
  {
  }

  lemma CoherentByStep(chain: Chain, p: PoolState, e: Event, q: PoolState)
    requires Known(chain, p) && p.Coherent() && Step(chain, p, e, q) && Harmless(p, e)
    ensures q.Coherent()
  {
    AgreesDescending(chain, p.cache.dag);
    match e
    case BlockEvent(i, root, slot, header) =>
      if q.forks.Some? {
        KnownByStep(chain, p, e, q);
        AgreesDescending(chain, q.cache.dag);
        NewBlockKeepsOrder(chain, p, root);
        SameForks(p.cache.dag, q.cache.dag, p.clients, p.maxDist);
      }
    case HeadPoll(i, root, slot, parent) =>
      if q.forks.Some? {
        KnownHeadPoll(chain, p, i, root);
      }
    case StatusUpdate(i, online, syncing, optimistic) =>
      if q.forks.Some? {
        ForksOfSameClients(p.cache.dag, p.clients, q.clients, p.maxDist);
      }
    case Cleanup =>
      if p.forks.Some? {
        CleanupCoherentIff(chain, p);
      }
    case Query =>
  }

  ghost predicate Initial(p: PoolState)
  {
    && p.cache == Empty(p.cache.follow)
    && p.forks == None
    && forall i :: 0 <= i < |p.clients| ==> p.clients[i] == ClientState(false, false, false, ZERO_ROOT, 0)
  }

  ghost predicate IsRun(chain: Chain, states: seq<PoolState>, events: seq<Event>)
  {
    && |states| == |events| + 1
    && Initial(states[0])
    && Ordered(chain)
    && forall k :: 0 <= k < |events| ==> Step(chain, states[k], events[k], states[k + 1])
  }

  lemma {:induction false} KnownByRun(chain: Chain, states: seq<PoolState>, events: seq<Event>, k: nat)
    requires IsRun(chain, states, events) && k < |states|
    ensures Known(chain, states[k])
    decreases k
  {
    if k > 0 {
      KnownByRun(chain, states, events, k - 1);
      KnownByStep(chain, states[k - 1], events[k - 1], states[k]);
    }
  }

  // ---------- what a client's state says of the run ----------

  // A block event asks for the header of a cached block that lacks it, and of a new one that is not too old.
  predicate WantsHeader(s: CacheState, root: Root, slot: Slot)
  {
    if root in s.dag then s.dag[root].parent.None? else slot + s.follow >= s.maxSlot
  }

  // The head that the event reports of client i: a poll always, a block event unless it wants for a header.
  function Reported(p: PoolState, e: Event, i: nat): Option<(Root, Slot)>
  {
    match e
    case HeadPoll(j, root, slot, _) => if j == i then Some((root, slot)) else None
    case BlockEvent(j, root, slot, header) =>
      if j == i && (header.Some? || !WantsHeader(p.cache, root, slot)) then Some((root, slot)) else None
    case _ => None
  }

  // The status flags that the event reports of client i.
  function Flagged(e: Event, i: nat): Option<(bool, bool, bool)>
  {
    if e.StatusUpdate? && e.i == i then Some((e.online, e.syncing, e.optimistic)) else None
  }

  ghost predicate SameHead(c: ClientState, root: Root, slot: Slot)
  {
    c.headRoot == root && c.headSlot == slot
  }

  // A client's head changes only by its own reports, and is then the one reported.
  lemma HeadByStep(chain: Chain, p: PoolState, e: Event, q: PoolState, i: nat)
    requires Known(chain, p) && Step(chain, p, e, q) && i < |p.clients|
    ensures |q.clients| == |p.clients|
    ensures match Reported(p, e, i)
            case None => SameHead(q.clients[i], p.clients[i].headRoot, p.clients[i].headSlot)
            case Some(head) => SameHead(q.clients[i], head.0, head.1)
  {
    if e.HeadPoll? && e.i == i {
      assert HeadTrue(chain, p.clients[i]);
    }
  }

  lemma FlagsByStep(chain: Chain, p: PoolState, e: Event, q: PoolState, i: nat)
    requires Step(chain, p, e, q) && i < |p.clients|
    ensures |q.clients| == |p.clients|
    ensures var c, b := q.clients[i], p.clients[i];
            match Flagged(e, i)
            case None => c.online == b.online && c.syncing == b.syncing && c.optimistic == b.optimistic
            case Some(flags) => c.online == flags.0 && c.syncing == flags.1 && c.optimistic == flags.2
  {
  }

  // Event j is the last before state k that reports the head of client i.
  ghost predicate LastReport(states: seq<PoolState>, events: seq<Event>, i: nat, j: nat, k: nat)
    requires k < |states| == |events| + 1
  {
    && j < k
    && Reported(states[j], events[j], i).Some?
    && forall m :: j < m < k ==> Reported(states[m], events[m], i).None?
  }

  ghost predicate LastFlags(events: seq<Event>, i: nat, j: nat, k: nat)
    requires k <= |events|
  {
    j < k && Flagged(events[j], i).Some? && forall m :: j < m < k ==> Flagged(events[m], i).None?
  }

  // In every state of every run a client's head is the one last reported, and the zero root if there was none.
  lemma {:induction false} HeadIsLastReport(chain: Chain, states: seq<PoolState>, events: seq<Event>, i: nat, k: nat)
    requires IsRun(chain, states, events) && k < |states| && i < |states[0].clients|
    ensures |states[k].clients| == |states[0].clients|
    ensures forall j: nat :: LastReport(states, events, i, j, k) ==>
      Reported(states[j], events[j], i).value == (states[k].clients[i].headRoot, states[k].clients[i].headSlot)
    ensures (forall j :: 0 <= j < k ==> Reported(states[j], events[j], i).None?) ==>
      states[k].clients[i].headRoot == ZERO_ROOT && states[k].clients[i].headSlot == 0
    decreases k
  {
    if k > 0 {
      var n := k - 1;
      HeadIsLastReport(chain, states, events, i, n);
      KnownByRun(chain, states, events, n);
      HeadByStep(chain, states[n], events[n], states[k], i);
      forall j: nat | LastReport(states, events, i, j, k)
        ensures Reported(states[j], events[j], i).value ==
          (states[k].clients[i].headRoot, states[k].clients[i].headSlot)
      {
        if j < n {
          assert LastReport(states, events, i, j, n);
        }
      }
    }
  }

  // Its flags are those last reported, and all unset if there were none.
  lemma {:induction false} FlagsAreLastReport(chain: Chain, states: seq<PoolState>, events: seq<Event>, i: nat, k: nat)
    requires IsRun(chain, states, events) && k < |states| && i < |states[0].clients|
    ensures |states[k].clients| == |states[0].clients|
    ensures forall j: nat :: LastFlags(events, i, j, k) ==>
      Flagged(events[j], i).value ==
        (states[k].clients[i].online, states[k].clients[i].syncing, states[k].clients[i].optimistic)
    ensures (forall j :: 0 <= j < k ==> Flagged(events[j], i).None?) ==>
      !states[k].clients[i].online && !states[k].clients[i].syncing && !states[k].clients[i].optimistic
    decreases k
  {
    if k > 0 {
      var n := k - 1;
      FlagsAreLastReport(chain, states, events, i, n);
      FlagsByStep(chain, states[n], events[n], states[k], i);
      forall j: nat | LastFlags(events, i, j, k)
        ensures Flagged(events[j], i).value ==
          (states[k].clients[i].online, states[k].clients[i].syncing, states[k].clients[i].optimistic)
      {
        if j < n {
          assert LastFlags(events, i, j, n);
        }
      }
    }
  }

  // ---------- the memo over every run ----------

  // Only a query fills the memo, and no step alters one in place.
  lemma MemoByStep(chain: Chain, p: PoolState, e: Event, q: PoolState)
    requires Step(chain, p, e, q) && q.forks.Some?
    ensures p.forks.Some? ==> q.forks == p.forks
    ensures p.forks.None? ==> e.Query?
  {
  }

  // Nothing but a new memo removes the mark: an evicted head stays refused, and a memo kept keeps the heads.
  lemma StaleByStep(chain: Chain, p: PoolState, e: Event, q: PoolState)
    requires Known(chain, p) && Step(chain, p, e, q) && Stale(p) && q.forks.Some?
    ensures Stale(q)
  {
    MemoByStep(chain, p, e, q);
    var h :| IsHead(p.clients, h) && h !in p.cache.dag && !IsRoot(p.forks.value, h);
    assert HeadSettled(chain, p.cache, h);
    if e.HeadPoll? {
      KnownHeadPoll(chain, p, e.i, e.root);
    }
    assert h !in q.cache.dag;
    assert IsHead(q.clients, h) by {
      var i :| 0 <= i < |p.clients| && p.clients[i].headRoot == h;
      assert q.clients[i].headRoot == h;
    }
  }

  // Event j was a clean-up that severed two heads, and the memo it found is still there in state k.
  ghost predicate SeveredSince(states: seq<PoolState>, events: seq<Event>, j: nat, k: nat)
    requires k < |states| && |states| == |events| + 1
  {
    && j < k
    && events[j].Cleanup?
    && Severs(states[j])
    && forall m :: j <= m <= k ==> states[m].forks.Some?
  }

  // The memo of state k dates from before a clean-up that severed two heads.
  ghost predicate HoldsSevered(states: seq<PoolState>, events: seq<Event>, k: nat)
    requires k < |states| && |states| == |events| + 1
  {
    exists j: nat :: SeveredSince(states, events, j, k)
  }

  lemma SeveredByStep(states: seq<PoolState>, events: seq<Event>, k: nat)
    requires |states| == |events| + 1 && k < |events| && states[k + 1].forks.Some?
    ensures HoldsSevered(states, events, k + 1) <==>
              && states[k].forks.Some?
              && (HoldsSevered(states, events, k) || (events[k].Cleanup? && Severs(states[k])))
  {
    if states[k].forks.Some? {
      if j: nat :| SeveredSince(states, events, j, k) {
        assert SeveredSince(states, events, j, k + 1);
      }
      if events[k].Cleanup? && Severs(states[k]) {
        assert SeveredSince(states, events, k, k + 1);
      }
    }
    if HoldsSevered(states, events, k + 1) {
      var j: nat :| SeveredSince(states, events, j, k + 1);
      assert states[k].forks.Some?;
      assert j < k ==> SeveredSince(states, events, j, k);
    }
  }

  lemma MarkByStep(chain: Chain, p: PoolState, e: Event, q: PoolState, severed: bool)
    requires Known(chain, p) && Step(chain, p, e, q) && q.forks.Some?
    requires if severed then Stale(p) else p.Coherent()
    ensures if p.forks.Some? && (severed || (e.Cleanup? && Severs(p))) then Stale(q) else q.Coherent()
  {
    MemoByStep(chain, p, e, q);
    if severed {
      StaleByStep(chain, p, e, q);
    } else if Harmless(p, e) {
      CoherentByStep(chain, p, e, q);
    } else {
      SeveringLeavesStale(chain, p);
    }
  }

  lemma {:induction false} MemoOverRun(chain: Chain, states: seq<PoolState>, events: seq<Event>, k: nat)
    requires IsRun(chain, states, events) && k < |states|
    ensures if HoldsSevered(states, events, k) then Stale(states[k]) else states[k].Coherent()
    decreases k
  {
    if k > 0 {
      var i := k - 1;
      MemoOverRun(chain, states, events, i);
      if states[k].forks.Some? {
        KnownByRun(chain, states, events, i);
        SeveredByStep(states, events, i);
        MarkByStep(chain, states[i], events[i], states[k], HoldsSevered(states, events, i));
      }
    }
  }

  // Over every run, the memo equals a recomputation in exactly the states that hold no memo from before a
  // clean-up that severed two heads.
  lemma MemoCoherent(chain: Chain, states: seq<PoolState>, events: seq<Event>, k: nat)
    requires IsRun(chain, states, events) && k < |states|
    ensures states[k].Coherent() <==> !HoldsSevered(states, events, k)
  {
    MemoOverRun(chain, states, events, k);
    KnownByRun(chain, states, events, k);
    if Stale(states[k]) {
      StaleIsIncoherent(chain, states[k]);
    }
  }

  // What a query answers in such a run: forks that partition the clients by their maximal heads, know who
  // follows them, and are led by one with the most ready clients - whether memoised or fresh.
  lemma QueryIsSound(chain: Chain, p: PoolState, q: PoolState, r: Root)
    requires Known(chain, p) && p.Coherent() && p.OnQuery(q)
    ensures var d := p.cache.dag; var fs := q.forks.value;
            && Grouped(d, p.clients, fs)
            && (IsRoot(fs, r) <==> IsMaximalHead(d, p.clients, r))
            && (forall k :: 0 <= k < |fs| ==>
                  && ReadyExact(d, p.clients, fs[k], p.maxDist)
                  && |fs[0].ready| >= |fs[k].ready|
                  && (fs[k].root != ZERO_ROOT ==> fs[k].root in chain && fs[k].slot == chain[fs[k].root].slot))
  {
    AgreesDescending(chain, p.cache.dag);
    HeadForksSound(p.cache.dag, p.clients, p.maxDist, q.forks.value);
    forall k | 0 <= k < |q.forks.value|
      ensures var f := q.forks.value[k]; f.root != ZERO_ROOT ==> f.root in chain && f.slot == chain[f.root].slot
    {
      assert WellFormed(p.cache.dag, p.clients, q.forks.value[k]);
    }
  }

  // ---------- a run that serves a stale memo ----------

  // Block 1 at slot 5, its child 2 at slot 20, and a window of 10 slots.
  const OLD_HEAD: Root := 1
  const NEW_HEAD: Root := 2

  ghost function TwoBlocks(): Chain
  {
    imap[OLD_HEAD := Link(5, ZERO_ROOT), NEW_HEAD := Link(20, OLD_HEAD)]
  }

  function TwoClients(first: Root, firstSlot: Slot, second: Root, secondSlot: Slot): seq<ClientState>
  {
    [ClientState(false, false, false, first, firstSlot), ClientState(false, false, false, second, secondSlot)]
  }

  function TwoBlockCache(): CacheState
  {
    CacheState(map[OLD_HEAD := Node(5, Some(ZERO_ROOT)), NEW_HEAD := Node(20, Some(OLD_HEAD))], 20, 10)
  }

  // One client is on the parent, the other on the child; they form one fork, which is memoised.
  lemma TwoHeadsRun() returns (states: seq<PoolState>, events: seq<Event>)
    ensures IsRun(TwoBlocks(), states, events) && |events| == 3 && forall e :: e in events ==> !e.Cleanup?
    ensures var p := states[3];
            && p.forks.Some? && p.clients == TwoClients(OLD_HEAD, 5, NEW_HEAD, 20)
            && p.cache == TwoBlockCache()
  {
    var s0 := PoolState(Empty(10), TwoClients(ZERO_ROOT, 0, ZERO_ROOT, 0), 2, None);
    var s1 := s0.OnHeadPoll(0, OLD_HEAD, 5, ZERO_ROOT);
    var s2 := s1.OnHeadPoll(1, NEW_HEAD, 20, OLD_HEAD);
    assert PathTo(s2.cache.dag, OLD_HEAD, NEW_HEAD, 1);
    OneFork(s2.cache.dag, s2.clients, s2.maxDist);
    var s3 := s2.(forks := Some(Recomputed(s2.cache.dag, s2.clients, s2.maxDist)));
    states := [s0, s1, s2, s3];
    events := [HeadPoll(0, OLD_HEAD, 5, ZERO_ROOT), HeadPoll(1, NEW_HEAD, 20, OLD_HEAD), Query];
  }

  // The clean-up then evicts the parent, and the next query is answered with the memo, which still shows
  // one fork where a recomputation finds two.
  lemma EvictionCanStaleTheMemo() returns (states: seq<PoolState>, events: seq<Event>)
    ensures IsRun(TwoBlocks(), states, events) && |events| == 5
    ensures events[3] == Event.Cleanup && events[4] == Query
    ensures states[5].forks.Some? && !states[5].HasForks(states[5].forks.value)
  {
    states, events := TwoHeadsRun();
    var p := states[3];
    KnownByRun(TwoBlocks(), states, events, 3);
    MemoCoherent(TwoBlocks(), states, events, 3);
    ParentIsSevered(p);
    CleanupCoherentIff(TwoBlocks(), p);
    RunGrows(TwoBlocks(), states, events, Event.Cleanup, p.OnCleanup());
    states, events := states + [p.OnCleanup()], events + [Event.Cleanup];
    RunGrows(TwoBlocks(), states, events, Query, p.OnCleanup());
    states, events := states + [p.OnCleanup()], events + [Query];
  }

  lemma ParentIsSevered(p: PoolState)
    requires p.clients == TwoClients(OLD_HEAD, 5, NEW_HEAD, 20)
    requires p.cache == TwoBlockCache()
    ensures Severs(p)
  {
    assert PathTo(p.cache.dag, OLD_HEAD, NEW_HEAD, 1);
    assert p.clients[0].headRoot == OLD_HEAD && p.clients[1].headRoot == NEW_HEAD;
    assert Severed(p, OLD_HEAD, NEW_HEAD);
  }

  lemma RunGrows(chain: Chain, states: seq<PoolState>, events: seq<Event>, e: Event, q: PoolState)
    requires IsRun(chain, states, events) && Step(chain, states[|events|], e, q)
    ensures IsRun(chain, states + [q], events + [e])
  {
    var longer, more := states + [q], events + [e];
    forall k | 0 <= k < |more|
      ensures Step(chain, longer[k], more[k], longer[k + 1])
    {
      if k < |events| {
        assert Step(chain, states[k], events[k], states[k + 1]);
      }
    }
  }

  // Two clients on one chain give one fork, so there is nothing to sort.
  lemma OneFork(d: Dag, clients: seq<ClientState>, maxDist: nat)
    requires |clients| == 2 && Canonical(d, clients[0].headRoot, clients[1].headRoot)
    ensures |Recomputed(d, clients, maxDist)| == 1
  {
    assert clients[..2] == clients && clients[..0] == [];
    GroupOne(d, clients, 0);
    GroupOne(d, clients, 1);
  }
}
