# Dugtrio's endpoint selection, verified

Dugtrio is a load balancer in front of Ethereum beacon nodes. For every request it has to pick a node
that is on the canonical chain, close to its head, of the right client type, and not busier than the
others. This project models the part that makes these choices and proves what it guarantees:

- **the block cache** (`BlockCache.dfy`, over the values of `Ancestry.dfy` and `CacheModel.dfy`): two
  indexes over one set of blocks, a slot window that admits and evicts, and the walk from a head to its
  ancestors with an early slot cut-off;
- **the forks** (`Forks.dfy`, `HeadForks.dfy`): one greedy pass that groups the clients by their heads
  and moves fork roots forward as it goes; **the pool** (`Pool.dfy`) memoises the result, and
  `PoolModel.dfy` follows the memo through every run of block events, polls, status changes, clean-ups
  and queries;
- **the scheduler** (`Scheduler.dfy`): round robin with one cursor per client type, over a set of
  eligible clients that changes from call to call;
- **the proxy** (`Session.dfy`, `Rebalancer.dfy`, `Proxy.dfy`, over the values of `Loads.dfy`, `Rebalance.dfy`,
  `RebalanceTyped.dfy`, `RebalanceCounts.dfy`, `RebalanceExact.dfy` and `ProxyModel.dfy`): sticky sessions, the
  choice of an endpoint for a call, the expiry of sessions, and the loop that moves sessions between endpoints
  until their loads are even.

The parts of the program that change state are classes with methods and loops, as in the source. Each
class keeps a value of its state (a `State()` function or ghost fields tied to the fields by its
invariant), and the contract of each method says what it does to that value. The theorems about all runs
are stated and proved about the values. In particular

- every method of `Pools.Client` and `Pools.BeaconPool` that changes what the forks depend on (adding
  endpoints apart) ensures the transition of one step of `PoolModel.Step`;
- every call of `Pools.BeaconPool.GetReadyEndpoint` ensures one call of a `Scheduler.Schedule`;
- `Rebalancing.RebalanceLoop` ensures a `Rebalance.Trace` and what holds at its end;
- `ProcessCall`, `CleanupSessions` and `RebalanceSessions` of `Proxies.BeaconProxy` ensure the steps of
  `ProxyModel.Step`, in which the ready endpoints and the arguments of a call are given and its answer, the
  session's endpoint and the scheduler's cursors follow; put together, the steps they ensure are a run of the
  proxy model (`Proxies.BeaconProxy.ContractsMakeRun`).

Some invariants and contracts are put behind `Base.Look`, a predicate that is true of everything: a method
that only passes them on does not carry what they say, and `assert Look(seal, 0)` brings it in.

What is assumed of the world outside: blocks are reported as a `Chain` has them, that is, with one slot
and one parent each, a parent's slot is smaller than its child's (`process_block_header` in the phase0
beacon-chain document of the Ethereum consensus specifications; the source relies on it without checking
it, pool/blockcache.go:213-229), and no block has the zero root. Everything else about the cache, such as
that heads which are cached have their headers, is derived for every run.

## Results in short

- The roots of the forks are exactly the maximal client heads under the cached ancestor order, whatever
  the order of the clients (`HeadForks.HeadForksSound`, `Forks.RootsIgnoreClientOrder`).
- In every state of every run, failed header loads included, the memoised forks equal a recomputation if and
  only if the memo does not date from before a clean-up that severed two heads, that is, evicted a client's
  head that lies below another client's head (`PoolModel.MemoCoherent`, `PoolModel.CleanupCoherentIff`). The
  source does not reset the memo there, and `PoolModel.EvictionCanStaleTheMemo` is a run in which a query is
  then answered with forks that no recomputation gives.
- As long as the memo is right in this sense, every endpoint that answers a call not made by name is online and
  at most the configured distance behind a head that no client is ahead of (`Pools.BeaconPool.ReadyOnTop`,
  `Proxies.BeaconProxy.GetEndpointForCall`).
- A client's head and status are those it last reported, over every run (`PoolModel.HeadIsLastReport`,
  `PoolModel.FlagsAreLastReport`), and the cache holds every delivered block inside its window
  (`CacheModel.WindowIsCached`).
- An eligible client is picked within as many calls for its type as the pool has clients
  (`Scheduler.BoundedWait`), and a fixed eligible list is served evenly (`Scheduler.RoundRobinFair`). The
  scheduled calls of any run of the proxy, from any of its states on, are such calls, so that nobody starves
  there either, whenever it became ready (`ProxyModel.RunIsSchedule`, `ProxyModel.EveryPeerIsServed`).
- If every session may use every ready endpoint and there is no sweep limit, the rebalance loop stops
  exactly if the absolute threshold is not negative, or the sessions divide evenly, or both the remainder and
  what it lacks to one more session each are within the relative threshold (`Rebalance.TerminationExact`); and
  with a non-negative absolute threshold it ends with every endpoint inside the thresholds
  (`Rebalance.EndsInBand`).
- With sessions bound to client types the loop can swap two loads for ever even under sensible thresholds
  (`RebalanceTyped.TypedSessionsCanCycle`). For any sessions it stops, however ties are broken, exactly if none
  of its runs comes to a point where such a swap can start (`RebalanceTyped.TerminatesIffNoSwapPoint`). If all
  sessions are bound and on their type, there are tests before the start: the loop stops if, for every type, the
  sessions divide evenly among its endpoints or one more than the average is no overload
  (`RebalanceCounts.SettlesWhereDivided`). Among the types that fail this, one with the heaviest ceiling holds
  the loop up: it swaps for ever, the other types being worked down to that ceiling only. The loop stops exactly
  if the loads read off the start in this way are all in band (`RebalanceExact.TerminatesIffNoneSwaps`).
- Over every run of calls, expiries and sweeps a session of a client-specific route is on an endpoint of another
  type exactly if a call with an override by type sent it there, while an endpoint of that type was ready,
  and nothing has rerouted or moved it since (`ProxyModel.AstrayIffDriven`); without such overrides it never
  is (`ProxyModel.NeverAstrayWithoutOverride`).

The configuration comment describes `rebalanceMaxSweep: 0` as unlimited and the thresholds as what
triggers rebalancing (types/config.go:59-66); the code can go on without end in the case just named, and
the model follows the code.

## Model

| member | source | states |
|---|---|---|
| Ancestry.PathsCompose | pool/blockcache.go:199-232 | distances add along a chain: n steps from b to a and m steps from c to b are m + n steps from c to a |
| Ancestry.PathIsLinks | pool/blockcache.go:213-229 | a path of n steps is a list of n + 1 roots, each but the last cached with a header that names the next as its parent, that ends at the head itself or a cached block |
| Ancestry.DistanceIsLinks | pool/blockcache.go:199-232 | the distance is the number of those links, and 0 where there are none |
| Ancestry.PathUnique | pool/blockcache.go:199-232 | a block has at most one distance from a head |
| Ancestry.CanonicalAntisymmetric | pool/blockcache.go:194-197 | two roots that are ancestors of each other are equal |
| Ancestry.CanonicalTransitive | pool/blockcache.go:194-197 | an ancestor of an ancestor is an ancestor |
| Ancestry.AncestorsComparable | pool/blockcache.go:213-229 | two ancestors of one head lie on one chain, at the difference of their distances |
| Ancestry.CanonicalComparable | pool/blockcache.go:194-197 | of two ancestors of one head, one is an ancestor of the other |
| Ancestry.EvictionTransparent | pool/blockcache.go:170-192 | a clean-up changes no distance to a block it leaves in the cache, for any head |
| Ancestry.NewBlockTransparent | pool/blockcache.go:108-119 | a new block without a header changes no path except those that end in it |
| CacheModel.AgreesDescending | pool/blockcache.go:213-229 | a cache that agrees with the chain has cached parents in earlier slots only, on which the walk's termination rests |
| CacheModel.RunInvariant | pool/blockcache.go:95-192 | over every run of additions, headers and clean-ups the cache agrees with the chain, the highest slot belongs to a cached block, and it never falls |
| CacheModel.MaxSlotFromEmpty | pool/blockcache.go:121-123 | after every run from an empty cache the highest slot bounds all accepted slots and is one of them, or 0 if there are none |
| CacheModel.EvictionIsPermanent | pool/blockcache.go:103-106 | a root that was delivered and is missing, because it was refused or evicted, is refused by every later delivery of any run |
| CacheModel.WindowIsCached | pool/blockcache.go:103-119 | conversely no block is lost: after every run a block that was delivered and is at most the follow distance below the highest slot is cached |
| CacheModel.CleanupKeepsWindow | pool/blockcache.go:174-188 | a clean-up keeps exactly the blocks inside the follow distance, and the highest accepted block is among them |
| BlockCaches.CachedBlock.EnsureHeader | pool/cachedblock.go:58-79 | a header that is present is kept, a missing one is loaded, and the call fails exactly if it stays missing |
| BlockCaches.BlockCache.AddBlock | pool/blockcache.go:95-128 | a known root is returned as it is; an unknown one is cached, without header and in both indexes, exactly if it is at most the follow distance below the highest slot, which it may raise |
| BlockCaches.BlockCache.CleanupCache | pool/blockcache.go:170-192 | drops exactly the blocks more than the follow distance below the highest slot from both indexes, and keeps the others as they are |
| BlockCaches.SameBlocksAdd | pool/blockcache.go:114-119 | entering a new block under its root and at the end of its slot's row keeps the two indexes in agreement |
| BlockCaches.BlockCache.GetCachedBlocks | pool/blockcache.go:135-155 | lists every cached block exactly once, in non-increasing slot order |
| BlockCaches.BlockCache.GetBlockDistance | pool/blockcache.go:199-232 | terminates and answers true with d exactly if d parent steps through cached blocks with headers lead from the head to the block, itself cached if d > 0; otherwise false and 0, so the slot cut-off loses no ancestor |
| BlockCaches.BlockCache.IsCanonicalBlock | pool/blockcache.go:194-197 | decides the ancestor order |
| BlockCaches.BlockCache.ReceiveBlock | pool/clientlogic.go:250-275 | the cache's part of a block event: the block is added, its header is loaded only if it is missing; it fails exactly if a cached block is left without header, because none was there and none could be loaded |
| BlockCaches.BlockCache.StoreBlock | pool/clientlogic.go:321-326 | the cache's part of a head poll: the block is added and its header set, unless the block is refused |
| Forks.PlaceIncomparable | pool/forks.go:48-61 | placing one client keeps the fork roots pairwise incomparable, also when a root is moved forward in place |
| Forks.JoinWellFormed | pool/forks.go:49-61 | when a client joins a fork, every member's head is still the root or one of its ancestors, the members ascend, and root and slot are those of a member |
| Forks.GroupGrouped | pool/forks.go:41-73 | the grouping puts every client into exactly one fork, with incomparable roots and well-formed forks |
| Forks.RootsAreMaximalHeads | pool/forks.go:41-73 | a root is the root of a fork if and only if it is a maximal client head |
| Forks.RootsIgnoreClientOrder | pool/forks.go:43-73 | two client lists with the same set of heads give the same fork roots |
| HeadForks.ReadyIsExact | pool/forks.go:75-93 | the ready members of a fork are exactly the online members at most MaxHeadDistance parent steps behind its root; that the found flag is discarded does no harm, because no member lacks a path |
| HeadForks.GroupedReordered | pool/forks.go:96-101 | sorting the forks, in any order ties may fall, keeps the partition, the incomparable roots and the well-formed forks |
| HeadForks.HeadForksSound | pool/forks.go:33-106 | whatever GetHeadForks may return partitions the clients by their maximal heads, has the exact ready lists, and starts with a fork with the most ready clients |
| HeadForks.SameForks | pool/forks.go:41-93 | two caches with the same paths between the client heads give the same forks |
| PoolModel.KnownByStep | pool/clientlogic.go:250-342 | every event keeps the cache in agreement with the chain, every client head cached with its header or never to be cached again, and every head slot true |
| PoolModel.KnownByRun | pool/clientlogic.go:250-342 | in every state of every run the cache agrees with the chain, every client head is cached with its header or never to be cached again, and every head slot is true |
| PoolModel.HeadByStep | pool/clientlogic.go:277-342 | over one step a client's head becomes what the client reports, by a poll, or by a block event unless it wants for a header; otherwise it stays |
| PoolModel.HeadIsLastReport | pool/clientlogic.go:277-342 | in every state of every run a client's head and its slot are those of the client's last such report, and the zero root if there was none |
| PoolModel.FlagsAreLastReport | pool/clientlogic.go:236-248 | its status flags are those of its last status update, and all unset if there was none |
| PoolModel.NewBlockKeepsOrder | pool/clientlogic.go:250-271 | a block added without its header, as after a failed load, changes no path between client heads |
| PoolModel.KnownHeadPoll | pool/clientlogic.go:321-333 | polling the head a client already has changes nothing, so returning without a reset is right |
| PoolModel.ForksOfSameClients | pool/clientlogic.go:236-248 | flags that change without changing a status do not change the forks, so the memo may stay |
| PoolModel.CoherentByStep | pool/clientlogic.go:236-342 | every event keeps the memo equal to a recomputation, unless it is a clean-up that severs two heads |
| PoolModel.CleanupCoherentIff | pool/blockcache.go:170-192 | a clean-up leaves a memo equal to a recomputation if and only if it evicts no client's head that is a proper ancestor of another client's head |
| PoolModel.StaleByStep | pool/clientlogic.go:236-342 | a wrong memo stays wrong, by the same mark, through every step that does not drop it |
| PoolModel.MemoCoherent | pool/forks.go:17-39 | in every state of every run the memo is what a recomputation gives, up to the order of ties, if and only if it was not there already when some earlier clean-up evicted a client's head that is a proper ancestor of another client's head |
| PoolModel.QueryIsSound | pool/forks.go:33-106 | in such a state every answer, memoised or fresh, partitions the clients by maximal heads with exact ready lists and true slots, best fork first |
| PoolModel.EvictionCanStaleTheMemo | pool/blockcache.go:179-189 | a run of two polls, a query and a clean-up, after which a second query is answered with forks that differ from every recomputation |
| Pools.Client.UpdateStatus | pool/clientlogic.go:236-248 | the flags are set, and the memo is dropped exactly if the status changes, where syncing counts before optimistic and that before online; the status step of the pool model |
| Pools.Client.ProcessBlockEvent | pool/clientlogic.go:250-284 | the block event step of the pool model: unless a cached block is left without header, the head becomes the block and the memo is dropped; otherwise head and memo stay |
| Pools.Client.SetHeader | pool/clientlogic.go:321-342 | the head poll step of the pool model: cache and header, then head and slot, and the memo is dropped, if the head is another; a poll of the same head leaves the memo |
| Pools.BeaconPool.AddEndpoint | pool/beaconpool.go:57-69 | indexes ascend along the client list; a failed creation uses up its index |
| Pools.BeaconPool.NewBeaconPool | pool/beaconpool.go:29-51 | fails exactly on an unknown scheduler mode or without follow distance; otherwise an empty pool |
| Pools.BeaconPool.GroupClients | pool/forks.go:41-73 | the pass over the clients, with forks changed in place, computes Group |
| Pools.BeaconPool.FillReady | pool/forks.go:75-93 | fills in the ready lists of all forks as ReadyOf says, and changes nothing else |
| Pools.BeaconPool.SortByReady | pool/forks.go:95-101 | some permutation with descending ready counts |
| Pools.BeaconPool.GetHeadForks | pool/forks.go:33-106 | answers from the memo, or computes forks that are a recomputation up to ties and memoises them |
| Pools.BeaconPool.GetCanonicalFork | pool/forks.go:24-31 | the first head fork, or none if there are no forks; its ready members come in ascending index order |
| Pools.BeaconPool.IsClientReady | pool/beaconpool.go:101-119 | true exactly for a client in the canonical fork's ready list |
| Pools.BeaconPool.ForkInFull | pool/forks.go:41-93 | while the memo is what a recomputation gives, a fork's root and slot are those of a client's head that no other is ahead of, its members are clients on its chain, and its ready list has exactly the members that are connected, neither syncing nor optimistic, and at most MaxHeadDistance parent steps behind |
| Pools.BeaconPool.OneForkEach | pool/forks.go:41-73 | every client is then a member of one fork, and of no other |
| Pools.BeaconPool.FullestAnswers | pool/forks.go:24-31 | the clients that may answer are then those of a fork with the most ready ones |
| Pools.BeaconPool.ReadyOnTop | pool/forks.go:75-93 | while the memo is what a recomputation gives, a client of the canonical ready list is online and at most MaxHeadDistance parent steps behind a maximal client head |
| Pools.BeaconPool.NextClient | pool/beaconpool.go:136-161 | the first client of the type after the cursor, else the first of the type, else none |
| Pools.BeaconPool.RunClientScheduler | pool/beaconpool.go:121-164 | picks the eligible client that follows the type's cursor around the ring, none exactly if none is eligible, and moves this cursor only |
| Pools.BeaconPool.PickInFull | pool/beaconpool.go:121-164 | a scheduler call answers with the suitable client that follows the type's cursor, 0 at first, in index order, or else with the first one, and puts the cursor there; with none only for want of a suitable client, and then moves nothing |
| Pools.BeaconPool.GetReadyEndpoint | pool/beaconpool.go:85-99 | the choice is in the canonical fork's ready list and suits type and custody group count; none is chosen only if no ready client suits; with a right memo the choice is online and close to a maximal head |
| Scheduler.PickGetsCloser | pool/beaconpool.go:139-152 | a call that picks somebody else strictly shrinks the set of pool clients between the cursor and a waiting eligible client |
| Scheduler.BoundedWait | pool/beaconpool.go:121-161 | a client eligible for every call of a type is picked within as many of these calls as the pool has clients, whatever else changes between them |
| Scheduler.PicksWalkTheRing | pool/beaconpool.go:139-160 | over a fixed eligible list the picks for a type walk around it in order, from wherever the cursor stands |
| Scheduler.RoundRobinFair | pool/beaconpool.go:136-161 | any n calls for a type over a fixed list of k clients give each of them n/k picks, rounded down or up, with calls for other types in between |
| Loads.ShiftSumSq | proxy/beaconproxy.go:432-433 | moving one session over a gap changes the sum of squared loads by exactly -2 * (gap - 1) |
| Rebalance.OutOfBandIsDeviation | proxy/beaconproxy.go:345-356 | the integer test of the model is the source's test on relative and truncated absolute deviation, in exact arithmetic |
| Rebalance.MoveNeverWorsens | proxy/beaconproxy.go:385-477 | every legal move, typed or not, keeps the total and the range of the loads and lowers the sum of squares by 2 * (gap - 1) |
| Rebalance.MoveExists | proxy/beaconproxy.go:386-442 | where every session may use every endpoint, uneven loads always leave the loop a move from a heaviest to a lightest endpoint |
| Rebalance.ChosenIsExtreme | proxy/beaconproxy.go:411-422 | in that case the loop only ever moves from a heaviest to a lightest endpoint |
| Rebalance.SweepLimits | proxy/beaconproxy.go:482-490 | with a positive sweep limit the loop makes at most that many moves, for any sessions |
| Rebalance.TerminationExact | proxy/beaconproxy.go:345-490 | without a sweep limit, if every session may use every ready endpoint, the loop stops, however ties fall, if and only if Settles holds of the thresholds and the two counts |
| Rebalance.SettlingBound | proxy/beaconproxy.go:482-490 | under Settles the loop makes at most half the initial sum of squared loads moves |
| Rebalance.NeverStuckOutOfBand | proxy/beaconproxy.go:369-479 | with a non-negative absolute threshold such a loop never ends for lack of a move while a load is out of band |
| Rebalance.EndsInBand | proxy/beaconproxy.go:345-490 | a run of such a loop that has ended, without a sweep limit, has left no endpoint out of band |
| RebalanceTyped.TerminatesIffNoSwapPoint | proxy/beaconproxy.go:369-490 | without a sweep limit, for any sessions, the loop stops, however ties are broken, if and only if no run of it comes, out of band, to a swap point: a chosen move between loads that differ by one, of a session that may also be where it is, and either has no prefix or goes to an endpoint that serves none without |
| RebalanceTyped.BoundedWithoutSwapPoint | proxy/beaconproxy.go:482-490 | a loop that comes to no swap point makes at most as many moves as the potential of its start, for any sessions |
| RebalanceTyped.RoundLowersPotential | proxy/beaconproxy.go:385-477 | away from swap points every round, a plain swap included, lowers a potential made of the sum of squares, the sessions that are off their type, and the load of the endpoints that serve no session without prefix |
| RebalanceTyped.SwapBack | proxy/beaconproxy.go:444-476 | after a move from a swap point the loop may choose a move back to the source, and that is a swap point again |
| RebalanceTyped.TypedSessionsCanCycle | proxy/beaconproxy.go:444-476 | three sessions bound to one type, on three endpoints, with which the loop does not terminate although both thresholds are non-negative |
| RebalanceCounts.MoveStaysInType | proxy/beaconproxy.go:416-422 | with all sessions bound to and on their type, a move changes neither the number of sessions of any type nor this |
| RebalanceCounts.ChosenIsTypeMax | proxy/beaconproxy.go:386-422 | then the loop only ever moves from a heaviest to a lightest endpoint of a type |
| RebalanceCounts.RoundExists | proxy/beaconproxy.go:385-477 | for any sessions: where some move is legal, there is one that the loop makes |
| RebalanceCounts.SettlesWhereDivided | proxy/beaconproxy.go:369-490 | if the sessions of each type divide evenly among its endpoints, or the average of the type plus one is no overload, the loop makes at most as many moves as the potential of its start |
| RebalanceCounts.LopsidedNeeds | proxy/beaconproxy.go:345-356 | a type that is out of band when its sessions are spread evenly is out of band however they are spread |
| RebalanceExact.MoveIsCloser | proxy/beaconproxy.go:411-477 | with all sessions bound to and on their type, a move of the loop takes one session off a heaviest and onto a lightest load of its type, and leaves the loads of the other types as they are |
| RebalanceExact.MoveWhileHeldUp | proxy/beaconproxy.go:385-477 | while the sessions of a type do not divide, the loop can always go on with a move of that type or one above what it needs |
| RebalanceExact.SwapsNeed | proxy/beaconproxy.go:345-356 | a load that is out of band at the swap is so already at the start |
| RebalanceExact.NarrowerOverTrace | proxy/beaconproxy.go:369-480 | over a run the range of what is left of a type's loads, once those above a limit are worked down, never widens |
| RebalanceExact.TerminatesIffNoneSwaps | proxy/beaconproxy.go:369-490 | without a sweep limit, with all sessions bound to and on their type, the loop stops, however ties are broken, if and only if no type that does not divide, with the heaviest ceiling of these, leaves a load out of band: its own sessions spread evenly, those of the others moved from heaviest to lightest down to that ceiling |
| Sessions.Session.AddActiveContext | proxy/session.go:269-278 | registers under an id that is not in use |
| Sessions.Session.CancelActiveConnections | proxy/session.go:287-295 | calls every registered cancel function exactly once and leaves the registry empty |
| Sessions.Session.SetLastPoolClient | proxy/session.go:297-302 | cancels what runs exactly if the endpoint changes |
| Rebalancing.FindTarget | proxy/beaconproxy.go:416-422 | the least loaded endpoint the prefix allows, if it is below the source; none exactly if there is none below |
| Rebalancing.PickFrom | proxy/beaconproxy.go:394-477 | the session that goes first from one source, without prefix before others and oldest of its prefix, with its target; none only if no session there can improve |
| Rebalancing.MoveIsChosen | proxy/beaconproxy.go:385-477 | what the search over sorted loads finds is the move Chosen describes: heaviest source that has one, lightest allowed target |
| Rebalancing.NothingMoves | proxy/beaconproxy.go:386-392 | a search that ends at the ideal load or at the end of the list found that no session has a legal move |
| Rebalancing.ChosenInNumbers | proxy/beaconproxy.go:385-477 | in numbers of sessions: the move leaves an endpoint above the ideal for the least used allowed one, which has fewer; no session on a fuller endpoint could do so; of those on this one, a session without prefix goes first, and the oldest of its prefix |
| Rebalancing.StuckInNumbers | proxy/beaconproxy.go:385-480 | nothing can move exactly if no session on an endpoint above the ideal may use one with fewer sessions |
| Rebalancing.NeedsInNumbers | proxy/beaconproxy.go:322-356 | a load is out of band exactly if the number of sessions on some endpoint is, relative to all sessions on ready endpoints |
| Rebalancing.CountSessions | proxy/beaconproxy.go:322-334 | the counters start as a recount per ready endpoint, and their sum counts the sessions on ready endpoints |
| Rebalancing.NeedsRebalance | proxy/beaconproxy.go:345-356 | true exactly if some load is out of band |
| Rebalancing.RebalanceOne | proxy/beaconproxy.go:369-480 | either no legal move exists and nothing changed, or the chosen move was made, its session's connections were cancelled once, every other session is unchanged, and the counters are again a recount |
| Rebalancing.RebalanceLoop | proxy/beaconproxy.go:358-490 | makes a run of the model over the sessions, and takes them only from ready endpoints to ready endpoints they may use; it ends only with nothing out of band, with nothing to move, or after the moves the sweep limit allows, and goes on otherwise; where every session may use every endpoint, half the initial sum of squares is rounds enough to end with nothing out of band |
| Proxies.BeaconProxy.CollectSessions | proxy/beaconproxy.go:307-318 | lists every open session once, whatever the order of the maps |
| Proxies.BeaconProxy.RebalanceSessions | proxy/beaconproxy.go:296-493 | one sweep step of the proxy model and one query step of the pool model: the loop over all open sessions and the canonical fork's ready list; sessions on no or a non-ready endpoint are untouched, and a session on an endpoint of its type stays on such |
| Proxies.BeaconProxy.GetSessionForRequest | proxy/session.go:80-121 | one session per address and prefix, opened with the current time on no endpoint on first use; no other session is affected |
| Proxies.BeaconProxy.CleanupSessions | proxy/session.go:170-192 | one expiry step of the proxy model: drops exactly the sessions that are idle or in an idle group, and keeps the others under their keys |
| Proxies.BeaconProxy.ScheduleEndpoint | proxy/beaconproxy.go:276-282 | one scheduler call over the ready endpoints that suit, which moves its type's cursor; the session moves to the answer unless blobs are asked for, cancelling what it runs if that is elsewhere |
| Proxies.BeaconProxy.GetEndpointForCall | proxy/beaconproxy.go:236-285 | by name the endpoint of that name, for blobs with at least 64 custody groups, or an error for want of it; otherwise a ready endpoint of the type in force, for blobs with at least 64 custody groups, and none only for want of such; a sticky ready endpoint that serves the call is kept, and any other call takes its turn at the cursor of its type; calls by name or for blobs leave the session alone, others move it to the answer and cancel what it ran elsewhere; one call step of the proxy model; and with a right memo the answer is online and close to a maximal head |
| Proxies.BeaconProxy.ProcessCall | proxy/beaconproxy.go:161-203 | the call of a route on the session of its address and prefix, with that answer and effect on this session only, is one step of the proxy model; a rate-limited one only opens the session |
| Proxies.NamesParse | pool/clienttype.go:42-61 | the names that select a client type are those of the types, each its own, and any other name is an endpoint's |
| Proxies.BeaconProxy.ContractsMakeRun | proxy/beaconproxy.go:141-203 | a run of the proxy model goes on with any step that a call, an expiry or a sweep ensures, for any record of the types of the endpoints found |
| Proxies.HomeAfterCall | proxy/beaconproxy.go:252-282 | after a call a session is on an endpoint its prefix allows exactly if it was so before a call by name or for blobs, or the call overrides no type, the session has no prefix, the override is its own type, or no ready endpoint has the overriding type |
| ProxyModel.ServedSuits | proxy/beaconproxy.go:252-282 | an answer to a call that names no endpoint is ready and suits the type in force and the custody group count, and is missing only if no ready endpoint does |
| ProxyModel.AwayIffDiverted | proxy/beaconproxy.go:276-282 | a call not by name and not for blobs leaves its session on an endpoint of another type if and only if its override asks for another type and an endpoint of that type is ready, wherever the session was before |
| ProxyModel.SweepMovesHome | proxy/beaconproxy.go:411-466 | a sweep leaves a session where it was, or on an endpoint its prefix allows |
| ProxyModel.SweepSeats | proxy/beaconproxy.go:305-334 | the run of a sweep starts from where the sessions are, with their prefixes and times of opening, and they end where it ends; sessions on no ready endpoint stay |
| ProxyModel.AstrayByStep | proxy/beaconproxy.go:236-493 | over one step of any kind, exactly when a session is on an endpoint of another type afterwards |
| ProxyModel.AstrayIffDriven | proxy/clientspecificproxy.go:29-43 | in every state of every run of calls, expiries and sweeps, a session is on an endpoint of another type if and only if an earlier call diverted it and no call, expiry or sweep gave it another endpoint since |
| ProxyModel.NeverAstrayWithoutOverride | proxy/clientspecificproxy.go:29-43 | in particular a session whose calls carry no override by type is never there |
| ProxyModel.OverrideLeavesHome | proxy/beaconproxy.go:255-257 | a run in which an override by type leaves a Lighthouse session on a Teku client, and a call for blobs does not bring it back |
| ProxyModel.RunIsSchedule | pool/beaconpool.go:121-164 | the calls that a run of the proxy hands to the scheduler are a schedule, whatever happens in between |
| ProxyModel.EveryPeerIsServed | pool/beaconpool.go:121-161 | from any state of a run on, an endpoint that is ready and suits every scheduled call for a type is the answer to one of them, once they are as many as the pool has clients |

## Left out

- RebalanceSessions: follows the loop for a given number of rounds, because with typed sessions and no sweep limit it may run for ever; the contract says what holds after any number of rounds, and that the loop has finished if the number exceeds a bound on its runs.
- TerminatesIffNoSwapPoint: its criterion speaks of the states the loop can reach; criteria on where it starts are given by TerminationExact, for sessions that may use every ready endpoint, and by TerminatesIffNoneSwaps, for sessions that are bound to and on their type. Other mixtures have the criterion on reachable states only.
- MemoCoherent: takes the reset of the memo and the change of the head or status as one step, as under one lock; the source makes them one after the other.
- OutOfBandIsDeviation: uses exact arithmetic where the source rounds to 64-bit floats.
- AddEndpoint: adding endpoints while a memo exists leaves the memo without them; the runs of the pool model start with all clients in place.
- Widths: indexes beyond 65535 and slots beyond 2^63 - 1, which would wrap around or change sign in the source.
- Updates of client types and custody group counts from node metadata: the counts may differ from event to event, but the runs of the proxy model take the type of a client as fixed.
- Finalized checkpoints, chain specifications and the set of clients that have seen a block, which no choice depends on.
- HTTP proxying, event streams, timeouts, retries and the wall clock: their outcomes, such as the sessions that have been idle for too long, enter as arguments.
- Authorization and blocked paths, which reject a call before it has a session; whether the rate limit stops a call is an argument.
- The address a session group is filed under is an argument; taking it from headers is not modelled.
- A scheduler mode other than round robin, which the constructor does not let through.
- Metrics, logging, the web frontend and configuration loading.
