/** proxy/beaconproxy.go: the session groups, the sticky endpoint choice, and rebalancing all sessions. */
module Proxies {
  import opened Base
  import PoolModel
  import opened Pools
  import opened ProxyModel
  import opened Scheduler
  import opened Rebalance
  import opened Rebalancing
  import opened Sessions

  // What a call gets: an endpoint, none because no ready one suits, or an error.
  datatype Choice =
    | Chose(endpoint: Client?)
    | CgcTooLow
    | NoEndpointMatches

  const BLOB_PATH := "/eth/v1/beacon/blobs/"
  const BLOB_CGC: nat := 64

  function ParseClientType(name: string): (t: ClientType)
    ensures t != Unspecified
  {
    if name == "lighthouse" then Lighthouse
    else if name == "lodestar" then Lodestar
    else if name == "nimbus" then Nimbus
    else if name == "prysm" then Prysm
    else if name == "teku" then Teku
    else if name == "grandine" then Grandine
    else if name == "caplin" then Caplin
    else Unknown
  }

  // The names by which calls ask for a client type; anything else names an endpoint.
  const TYPE_NAMES := ["lighthouse", "lodestar", "nimbus", "prysm", "teku", "grandine", "caplin"]

  // The name of a client type, as it prefixes the routes.
  function TypeName(t: ClientType): string
  {
    match t
    case Unspecified => "unknown: 0"
    case Unknown => "unknown: -1"
    case Lighthouse => "lighthouse"
    case Lodestar => "lodestar"
    case Nimbus => "nimbus"
    case Prysm => "prysm"
    case Teku => "teku"
    case Grandine => "grandine"
    case Caplin => "caplin"
  }

  lemma NamesParse(name: string, t: ClientType)
    ensures t != Unspecified && t != Unknown ==> (ParseClientType(name) == t <==> name == TypeName(t))
    ensures ParseClientType(name) == Unknown <==> name !in TYPE_NAMES
    ensures [Lighthouse, Lodestar, Nimbus, Prysm, Teku, Grandine, Caplin] ==
      seq(|TYPE_NAMES|, i requires 0 <= i < |TYPE_NAMES| => ParseClientType(TYPE_NAMES[i]))
  {
  }

  function MinCgc(path: string): nat
  {
    if BLOB_PATH <= path then BLOB_CGC else 0
  }

  // The override names an endpoint rather than a client type.
  predicate IsNamed(next: string)
  {
    next != "" && ParseClientType(next) == Unknown
  }

  function OverrideOf(next: string): (ov: Override)
    ensures ov != OfType(Unspecified)
  {
    if next == "" then NoOverride else if IsNamed(next) then ByName else OfType(ParseClientType(next))
  }

  function AnswerOf(r: Choice): Client?
  {
    match r
    case Chose(endpoint) => endpoint
    case _ => null
  }

  // ---------- objects as values ----------

  ghost function PeerOf(client: Client): Peer
    reads client
  {
    Peer(client, client.clientType, client.custodyGroupCount)
  }

  ghost function PeersOf(ready: seq<Client>): (peers: seq<Peer>)
    reads ready
    ensures |peers| == |ready| && forall i :: 0 <= i < |ready| ==> peers[i] == PeerOf(ready[i])
    ensures Clients(peers) == ready
  {
    seq(|ready|, i requires 0 <= i < |ready| reads ready => PeerOf(ready[i]))
  }

  ghost function TenantOf(session: Session): Tenant
    reads session
  {
    Tenant(session.lastRebalance, session.lastPoolClient)
  }

  function KeyOf(session: Session): Key
  {
    Key(session.group.ipAddr, session.prefix)
  }

  // No endpoint, or one that the prefix allows.
  ghost predicate HomeOn(prefix: ClientType, last: Client?)
    reads if last == null then {} else {last}
  {
    last != null ==> MayUse(prefix, last.clientType)
  }

  ghost predicate Home(session: Session)
    reads session, if session.lastPoolClient == null then {} else {session.lastPoolClient}
  {
    HomeOn(session.prefix, session.lastPoolClient)
  }

  // The map that is left without the keys that are gone.
  ghost predicate Without<T>(m: map<Key, T>, whole: map<Key, T>, gone: set<Key>)
  {
    && (forall key :: key in m <==> key in whole && key !in gone)
    && (forall key :: key in m ==> m[key] == whole[key])
  }

  lemma WithoutIs(m: map<Key, Tenant>, whole: map<Key, Tenant>, gone: set<Key>)
    requires Without(m, whole, gone)
    ensures m == whole - gone
  {
  }

  lemma SuitingMeans(ready: seq<Client>, wanted: ClientType, minCgc: nat, answer: Client?)
    requires Suiting(PeersOf(ready), wanted, minCgc, answer)
    ensures if answer == null then forall c :: c in ready ==> !Suits(c, wanted, minCgc)
            else answer in ready && Suits(answer, wanted, minCgc)
  {
    if answer == null {
      forall c | c in ready
        ensures !Suits(c, wanted, minCgc)
      {
        var i :| 0 <= i < |ready| && ready[i] == c;
        assert !Suitable(PeersOf(ready)[i], wanted, minCgc);
      }
    }
  }

  lemma EligiblePeers(ready: seq<Client>, wanted: ClientType, minCgc: nat)
    ensures Eligible(PeersOf(ready), wanted, minCgc) == EligibleAmong(ready, wanted, minCgc)
  {
    var peers := PeersOf(ready);
    forall p | p in peers && Suitable(p, wanted, minCgc)
      ensures p.client.clientIdx in EligibleAmong(ready, wanted, minCgc)
    {
      assert p.client in ready && Suits(p.client, wanted, minCgc);
    }
    forall c | c in ready && Suits(c, wanted, minCgc)
      ensures c.clientIdx in Eligible(peers, wanted, minCgc)
    {
      var i :| 0 <= i < |ready| && ready[i] == c;
      assert peers[i] in peers && Suitable(peers[i], wanted, minCgc);
    }
  }

  // Whether a session of the prefix is on an endpoint of its type after a call: as before, if the call is by
  // name or for blobs; otherwise unless the call asks for another type, and a ready endpoint has it.
  ghost predicate HomeContract(ready: seq<Client>, next: string, minCgc: nat, prefix: ClientType,
                               before: Client?, after: Client?)
    reads ready, if before == null then {} else {before}, if after == null then {} else {after}
  {
    HomeOn(prefix, after) <==>
      if IsNamed(next) || minCgc > 0 then HomeOn(prefix, before)
      else next == "" || prefix == Unspecified || ParseClientType(next) == prefix
           || forall c :: c in ready ==> c.clientType != ParseClientType(next)
  }

  lemma HomeAfterCall(sticky: bool, ready: seq<Client>, prefix: ClientType, next: string, minCgc: nat,
                      before: Tenant, cursors: Cursors, answer: Client?, after: Tenant, cursorsAfter: Cursors)
    requires IndexAscending(ready)
    requires Served(sticky, PeersOf(ready), prefix, OverrideOf(next), minCgc, before, cursors, answer, after,
                    cursorsAfter)
    ensures HomeContract(ready, next, minCgc, prefix, before.last, after.last)
  {
    if !IsNamed(next) && minCgc == 0 {
      var types := TypesAt(ready, after.last);
      AwayIffDiverted(sticky, types, PeersOf(ready), prefix, OverrideOf(next), before, cursors, answer, after,
                      cursorsAfter);
      DivertedMeans(ready, ParseClientType(next));
    } else {
      assert after.last == before.last;
    }
  }

  ghost function TypesAt(ready: seq<Client>, last: Client?): (types: map<Client, ClientType>)
    reads ready, if last == null then {} else {last}
    ensures IndexAscending(ready) ==> KnownPeers(types, PeersOf(ready))
    ensures forall prefix :: Away(types, prefix, last) <==> !HomeOn(prefix, last)
  {
    var listed := ready + (if last == null then [] else [last]);
    map c | c in listed :: c.clientType
  }

  lemma DivertedMeans(ready: seq<Client>, t: ClientType)
    ensures t in Types(PeersOf(ready)) <==> exists c :: c in ready && c.clientType == t
  {
    var types := Types(PeersOf(ready));
    if c :| c in ready && c.clientType == t {
      var i :| 0 <= i < |ready| && ready[i] == c;
      assert types[i] == t;
    }
    if t in types {
      var i :| 0 <= i < |types| && types[i] == t;
      assert ready[i] in ready;
    }
  }

  // Calls for blobs and calls by name leave the session where it is.
  predicate KeepsEndpoint(path: string, next: string)
  {
    "/eth/v1/beacon/blobs/" <= path || (next != "" && ParseClientType(next) == Unknown)
  }

  class BeaconProxy {
    const pool: BeaconPool
    const stickyEndpoint: bool
    const rebalance: Config
    var sessions: map<string, SessionGroup>
    ghost var open: map<Key, Session>  // the open sessions by their keys
    ghost var tenants: map<Key, Tenant>  // the open sessions as values

    constructor (pool: BeaconPool, stickyEndpoint: bool, rebalance: Config)
      ensures this.pool == pool && this.stickyEndpoint == stickyEndpoint && this.rebalance == rebalance
      ensures Valid() && sessions == map[] && tenants == map[]
    {
      this.pool := pool;
      this.stickyEndpoint := stickyEndpoint;
      this.rebalance := rebalance;
      sessions, open, tenants := map[], map[], map[];
    }

    // The proxy as a value.
    ghost function State(): ProxyState
      reads `tenants, pool`rrLastIndexes
    {
      ProxyState(tenants, pool.rrLastIndexes)
    }

    // ---------- contracts ----------

    // A step of the proxy model on an orderly event, behind Look.
    ghost predicate StepContract(before: ProxyState, e: Event, after: ProxyState)
    {
      forall k {:trigger Look(StepSeal, k)} :: Look(StepSeal, k) ==>
        Step(stickyEndpoint, rebalance, before, e, after) && Orderly(e)
    }

    // The steps that the methods ensure, one after the other, make a run of the proxy model, with any record of
    // the types of the endpoints they find.
    lemma ContractsMakeRun(types: map<Client, ClientType>, states: seq<ProxyState>, events: seq<Event>, e: Event,
                           q: ProxyState)
      requires IsRun(stickyEndpoint, rebalance, types, states, events)
      requires StepContract(states[|events|], e, q) && Records(types, PeersIn(e))
      ensures IsRun(stickyEndpoint, rebalance, types, states + [q], events + [e])
    {
      assert Look(StepSeal, 0);
      RunGrows(stickyEndpoint, rebalance, types, states, events, e, q);
    }

    // The forks stay what a recomputation gives, if they were; behind Look.
    ghost predicate CoherenceContract(before: PoolModel.PoolState, after: PoolModel.PoolState)
    {
      forall k {:trigger Look(QuerySeal, k)} :: Look(QuerySeal, k) ==> before.Coherent() ==> after.Coherent()
    }

    lemma QueryIsCoherent(before: PoolModel.PoolState, after: PoolModel.PoolState)
      requires after == before || before.OnQuery(after)
      ensures CoherenceContract(before, after)
    {
      if after != before && before.Coherent() {
        PoolModel.QueryKeepsCoherent(before, after);
      }
    }

    // The query step of the pool model, behind Look.
    ghost predicate QueryContract(before: PoolModel.PoolState, after: PoolModel.PoolState)
    {
      forall k {:trigger Look(QuerySeal, k)} :: Look(QuerySeal, k) ==> before.OnQuery(after)
    }

    // One call of the scheduler, behind Look.
    ghost predicate PickContract(peers: seq<Peer>, wanted: ClientType, minCgc: nat, cursors: Cursors, answer: Client?,
                                 after: Cursors)
    {
      forall k {:trigger Look(CallSeal, k)} :: Look(CallSeal, k) ==>
        Picked(peers, wanted, minCgc, cursors, answer, after)
    }

    // One call of the proxy model, behind Look.
    ghost predicate CallContract(peers: seq<Peer>, clientType: ClientType, ov: Override, minCgc: nat,
                                 before: Tenant, cursors: Cursors, answer: Client?, after: Tenant,
                                 cursorsAfter: Cursors)
    {
      forall k {:trigger Look(CallSeal, k)} :: Look(CallSeal, k) ==>
        Served(stickyEndpoint, peers, clientType, ov, minCgc, before, cursors, answer, after, cursorsAfter)
    }

    // What the loop leaves behind: tr is a run of it over all open sessions, and either at its end or cut short.
    ghost predicate LoopContract(peers: seq<Peer>, before: map<Key, Tenant>, after: map<Key, Tenant>,
                                 rounds: nat, finished: bool, order: seq<Key>, tr: seq<Seating>)
    {
      SweptBy(rebalance, peers, before, after, order, tr) && Ran(rebalance, Types(peers), tr, rounds, finished)
    }

    // LoopContract, behind Look.
    ghost predicate SweepContract(peers: seq<Peer>, before: map<Key, Tenant>, after: map<Key, Tenant>,
                                  rounds: nat, finished: bool, order: seq<Key>, tr: seq<Seating>)
    {
      forall k {:trigger Look(SweepSeal, k)} :: Look(SweepSeal, k) ==>
        LoopContract(peers, before, after, rounds, finished, order, tr)
    }

    // ---------- sessions ----------

    // A session is registered under its prefix in its group, and a group under its address.
    ghost predicate Registered()
      reads `sessions, `open, sessions.Values
    {
      && (forall ip :: ip in sessions ==> sessions[ip].ipAddr == ip && Keeps(sessions[ip]))
      && (forall key :: key in open ==> RegisteredAt(key))
    }

    ghost predicate RegisteredAt(key: Key)
      requires key in open
      reads `sessions, `open, sessions.Values
    {
      key.ip in sessions && key.prefix in sessions[key.ip].sessions && KeyOf(open[key]) == key
    }

    ghost predicate Keeps(group: SessionGroup)
      reads `open, group
    {
      forall p :: p in group.sessions ==>
        Key(group.ipAddr, p) in open && open[Key(group.ipAddr, p)] == group.sessions[p]
    }

    ghost predicate Let()
      reads `open, `tenants, open.Values
    {
      && (forall key :: key in tenants <==> key in open)
      && (forall key :: key in open ==> tenants[key] == TenantOf(open[key]))
    }

    // The sessions are registered, and the tenants are the open ones, behind Look.
    ghost predicate Valid()
      reads `sessions, `open, `tenants, sessions.Values, open.Values
    {
      forall k {:trigger Look(SessionSeal, k)} :: Look(SessionSeal, k) ==> Registered() && Let()
    }

    // The session of an address and a prefix, opened on its first request.
    method GetSessionForRequest(ip: string, prefix: ClientType, now: int) returns (session: Session)
      requires Valid()
      modifies `sessions, `open, `tenants, sessions.Values
      ensures Valid() && ip in sessions && prefix in sessions[ip].sessions && sessions[ip].sessions[prefix] == session
      ensures Key(ip, prefix) in open && open[Key(ip, prefix)] == session && session.prefix == prefix
      ensures State() == old(State()).Visited(Key(ip, prefix), now)
      ensures if Key(ip, prefix) in old(open) then open == old(open)
              else fresh(session) && session.Valid() && Home(session) && session.lastRebalance == now
                   && session.Now() == Holding(null, map[], multiset{}) && open == old(open)[Key(ip, prefix) := session]
    {
      var group := GetGroup(ip);
      assert Look(SessionSeal, 0);
      if prefix in group.sessions {
        session := group.sessions[prefix];
      } else {
        session := OpenSession(group, prefix, now);
      }
    }

    method OpenSession(group: SessionGroup, prefix: ClientType, now: int) returns (session: Session)
      requires Valid() && group.ipAddr in sessions && sessions[group.ipAddr] == group && prefix !in group.sessions
      modifies `open, `tenants, group
      ensures Valid() && group.sessions == old(group.sessions)[prefix := session]
      ensures fresh(session) && session.Valid() && session.Now() == Holding(null, map[], multiset{})
      ensures session.lastRebalance == now
      ensures open == old(open)[Key(group.ipAddr, prefix) := session]
      ensures tenants == old(tenants)[Key(group.ipAddr, prefix) := Tenant(now, null)]
    {
      session := new Session(group, prefix, now);
      assert Look(SessionSeal, 0);
      ghost var key := Key(group.ipAddr, prefix);
      assert key !in open;
      Enlist(key, session);
      group.sessions := group.sessions[prefix := session];
      forall ip | ip in sessions
        ensures Keeps(sessions[ip])
      {
        if ip != group.ipAddr {
          assert old(Keeps(sessions[ip]));
        }
      }
      forall other | other in open
        ensures RegisteredAt(other)
      {
        assert other != key ==> old(RegisteredAt(other));
      }
      assert Registered();
    }

    ghost method Enlist(key: Key, session: Session)
      requires Let() && key !in open
      modifies `open, `tenants
      ensures Let() && open == old(open)[key := session] && tenants == old(tenants)[key := TenantOf(session)]
    {
      open := open[key := session];
      tenants := tenants[key := TenantOf(session)];
    }

    method GetGroup(ip: string) returns (group: SessionGroup)
      requires Valid()
      modifies `sessions
      ensures Valid() && ip in sessions && sessions[ip] == group
      ensures if ip in old(sessions) then sessions == old(sessions)
              else fresh(group) && group.sessions == map[] && sessions == old(sessions)[ip := group]
    {
      assert Look(SessionSeal, 0);
      if ip in sessions {
        return sessions[ip];
      }
      group := new SessionGroup(ip);
      sessions := sessions[ip := group];
      forall key | key in open
        ensures RegisteredAt(key)
      {
        assert old(RegisteredAt(key));
      }
      assert Registered();
    }

    // ---------- expiry ----------

    // Drops the groups and the single sessions that have been idle for too long, which are arguments.
    method CleanupSessions(idleGroups: set<string>, idle: set<Key>) returns (ghost gone: set<Key>)
      requires Valid()
      modifies `sessions, `open, `tenants, sessions.Values
      ensures Valid() && (forall key :: key in gone <==> key in old(open) && (key.ip in idleGroups || key in idle))
      ensures Without(open, old(open), gone) && StepContract(old(State()), Expired(gone), State())
    {
      gone := {};
      var todo := sessions.Keys;
      WhereRegistered();
      while todo != {}
        invariant Valid() && todo <= sessions.Keys && sessions.Values <= old(sessions).Values
        invariant forall key :: key in gone <==>
          key in old(open) && key.ip !in todo && (key.ip in idleGroups || key in idle)
        invariant Without(open, old(open), gone) && Without(tenants, old(tenants), gone)
        decreases |todo|
      {
        var ip :| ip in todo;
        todo := todo - {ip};
        ghost var some;
        if ip in idleGroups {
          some := DropGroup(ip);
        } else {
          WhereRegistered();
          some := DropIdle(sessions[ip], idle);
        }
        gone := gone + some;
      }
      WithoutIs(tenants, old(tenants), gone);
      assert Step(stickyEndpoint, rebalance, old(State()), Expired(gone), State());
    }

    method DropGroup(ip: string) returns (ghost gone: set<Key>)
      requires Valid() && ip in sessions
      modifies `sessions, `open, `tenants
      ensures Valid() && (forall key :: key in gone <==> key in old(open) && key.ip == ip)
      ensures Without(open, old(open), gone) && Without(tenants, old(tenants), gone)
      ensures sessions == old(sessions) - {ip}
    {
      assert Look(SessionSeal, 0);
      gone := set key | key in open && key.ip == ip;
      Unlist(gone);
      sessions := sessions - {ip};
      forall key | key in open
        ensures RegisteredAt(key)
      {
        assert old(RegisteredAt(key));
      }
      assert Registered();
    }

    method DropIdle(group: SessionGroup, idle: set<Key>) returns (ghost gone: set<Key>)
      requires Valid() && group.ipAddr in sessions && sessions[group.ipAddr] == group
      modifies group, `open, `tenants
      ensures Valid() && (forall key :: key in gone <==> key in old(open) && key.ip == group.ipAddr && key in idle)
      ensures Without(open, old(open), gone) && Without(tenants, old(tenants), gone)
    {
      gone := {};
      var todo := group.sessions.Keys;
      WhereRegistered();
      while todo != {}
        invariant Valid() && todo <= group.sessions.Keys
        invariant forall key :: key in gone <==>
          key in old(open) && key.ip == group.ipAddr && key.prefix !in todo && key in idle
        invariant Without(open, old(open), gone) && Without(tenants, old(tenants), gone)
        decreases |todo|
      {
        var prefix :| prefix in todo;
        todo := todo - {prefix};
        if Key(group.ipAddr, prefix) in idle {
          DropSession(group, prefix);
          gone := gone + {Key(group.ipAddr, prefix)};
        }
      }
    }

    method DropSession(group: SessionGroup, prefix: ClientType)
      requires Valid() && group.ipAddr in sessions && sessions[group.ipAddr] == group && prefix in group.sessions
      modifies group, `open, `tenants
      ensures Valid() && Key(group.ipAddr, prefix) in old(open) && group.sessions == old(group.sessions) - {prefix}
      ensures Without(open, old(open), {Key(group.ipAddr, prefix)})
      ensures Without(tenants, old(tenants), {Key(group.ipAddr, prefix)})
    {
      assert Look(SessionSeal, 0);
      EraseSession(group, prefix);
      Unlist({Key(group.ipAddr, prefix)});
      forall ip | ip in sessions
        ensures Keeps(sessions[ip])
      {
        assert sessions[ip].ipAddr == group.ipAddr ==> sessions[ip] == group;
      }
      forall key | key in open
        ensures RegisteredAt(key)
      {
      }
      assert Registered();
    }

    // Takes the session out of its group.
    method EraseSession(group: SessionGroup, prefix: ClientType)
      requires Registered() && group.ipAddr in sessions && sessions[group.ipAddr] == group && prefix in group.sessions
      modifies group
      ensures Key(group.ipAddr, prefix) in open && group.sessions == old(group.sessions) - {prefix}
      ensures forall ip :: ip in sessions ==> sessions[ip].ipAddr == ip && Keeps(sessions[ip])
      ensures forall key :: key in open && key != Key(group.ipAddr, prefix) ==> RegisteredAt(key)
    {
      assert Keeps(group);
      group.sessions := group.sessions - {prefix};
      forall ip | ip in sessions
        ensures sessions[ip].ipAddr == ip && Keeps(sessions[ip])
      {
        assert old(Keeps(sessions[ip]));
      }
      forall key | key in open && key != Key(group.ipAddr, prefix)
        ensures RegisteredAt(key)
      {
        assert old(RegisteredAt(key));
      }
    }

    ghost method Unlist(gone: set<Key>)
      requires Let()
      modifies `open, `tenants
      ensures Let() && Without(open, old(open), gone) && Without(tenants, old(tenants), gone)
    {
      open := open - gone;
      tenants := tenants - gone;
    }

    lemma WhereRegistered()
      requires Valid()
      ensures forall ip :: ip in sessions ==> sessions[ip].ipAddr == ip
      ensures forall key :: key in open ==> key.ip in sessions && key.prefix in sessions[key.ip].sessions
    {
      assert Look(SessionSeal, 0);
    }

    // ---------- listing ----------

    // All open sessions, each once, in whatever order the maps yield them.
    method CollectSessions() returns (all: seq<Session>)
      requires Registered()
      ensures Distinct(all) && forall x :: x in all <==> x in open.Values
    {
      all := [];
      var todo := sessions.Keys;
      while todo != {}
        invariant todo <= sessions.Keys && Distinct(all)
        invariant forall x :: x in all ==> x in open.Values && x.group.ipAddr !in todo
        invariant forall ip, p :: ip in sessions && ip !in todo && p in sessions[ip].sessions ==>
          sessions[ip].sessions[p] in all
        decreases |todo|
      {
        var ip :| ip in todo;
        todo := todo - {ip};
        var some := GroupSessions(sessions[ip]);
        assert forall x :: x in some ==> x !in all;
        DistinctAppend(all, some);
        all := all + some;
      }
    }

    method GroupSessions(group: SessionGroup) returns (some: seq<Session>)
      requires Registered() && group.ipAddr in sessions && sessions[group.ipAddr] == group
      ensures Distinct(some)
      ensures forall x :: x in some ==> x in open.Values && x.group.ipAddr == group.ipAddr
      ensures forall p :: p in group.sessions ==> group.sessions[p] in some
    {
      some := [];
      var todo := group.sessions.Keys;
      while todo != {}
        invariant todo <= group.sessions.Keys && Distinct(some)
        invariant forall x :: x in some ==> x in open.Values && x.group.ipAddr == group.ipAddr && x.prefix !in todo
        invariant forall p :: p in group.sessions && p !in todo ==> group.sessions[p] in some
        decreases |todo|
      {
        var prefix :| prefix in todo;
        todo := todo - {prefix};
        assert open[Key(group.ipAddr, prefix)] == group.sessions[prefix];
        some := some + [group.sessions[prefix]];
      }
    }

    // ---------- rebalancing ----------

    // The loop, followed for at most the given number of rounds, over all open sessions and the ready members
    // of the canonical fork.
    method RebalanceSessions(rounds: nat)
      returns (moves: nat, finished: bool, ghost peers: seq<Peer>, ghost order: seq<Key>, ghost tr: seq<Seating>)
      requires pool.Valid() && Valid()
      modifies pool`forkCache, pool`memo, `tenants, open.Values
      ensures pool.Valid() && Valid() && QueryContract(old(pool.State()), pool.State())
      ensures peers == PeersOf(pool.ReadyList())
      ensures if |peers| <= 1 then finished && moves == 0
              else |tr| == moves + 1 && SweepContract(peers, old(tenants), tenants, rounds, finished, order, tr)
      ensures StepContract(old(State()), Rebalanced(peers), State())
      ensures forall x :: x in open.Values ==>
        && Handled(Clients(peers), x, old(x.Now()))
        && (|peers| <= 1 ==> x.Now() == old(x.Now()))
        && (old(Home(x)) ==> Home(x))
    {
      var ready;
      ready, peers := ReadyClients();
      moves, finished, order, tr := RebalanceOver(ready, rounds, peers);
    }

    // No loop with less than two endpoints.
    method RebalanceOver(ready: seq<Client>, rounds: nat, ghost peers: seq<Peer>)
      returns (moves: nat, finished: bool, ghost order: seq<Key>, ghost tr: seq<Seating>)
      requires pool.Valid() && ready == pool.ReadyList() && peers == PeersOf(ready)
      requires Valid() && IndexAscending(ready)
      modifies `tenants, open.Values
      ensures pool.Valid() && pool.State() == old(pool.State()) && ready == pool.ReadyList() && peers == PeersOf(ready)
      ensures Valid()
      ensures if |peers| <= 1 then finished && moves == 0
              else |tr| == moves + 1 && SweepContract(peers, old(tenants), tenants, rounds, finished, order, tr)
      ensures StepContract(old(State()), Rebalanced(peers), State())
      ensures forall x :: x in open.Values ==>
        && Handled(ready, x, old(x.Now()))
        && (|ready| <= 1 ==> x.Now() == old(x.Now()))
    {
      ghost var before := State();
      moves, finished, order, tr := 0, true, [], [];
      if |ready| > 1 {
        moves, finished, order, tr := RebalanceOpen(ready, rounds, peers);
      }
      SweepIsStep(before, State(), peers, rounds, finished, order, tr);
    }

    // The ready members of the canonical fork; without a fork there are none.
    method ReadyClients() returns (ready: seq<Client>, ghost peers: seq<Peer>)
      requires pool.Valid()
      modifies pool`forkCache, pool`memo
      ensures pool.Valid() && QueryContract(old(pool.State()), pool.State())
      ensures ready == pool.ReadyList() && IndexAscending(ready) && peers == PeersOf(ready)
    {
      var canonicalFork := pool.GetCanonicalFork();
      ready := if canonicalFork == null then [] else canonicalFork.readyClients;
      peers := PeersOf(ready);
    }

    lemma SweepIsStep(before: ProxyState, after: ProxyState, peers: seq<Peer>, rounds: nat, finished: bool,
                      order: seq<Key>, tr: seq<Seating>)
      requires after.cursors == before.cursors && IndexAscending(Clients(peers))
      requires if |peers| <= 1 then after.tenants == before.tenants
               else tr != [] && SweepContract(peers, before.tenants, after.tenants, rounds, finished, order, tr)
      ensures StepContract(before, Rebalanced(peers), after)
    {
      assert Look(SweepSeal, 0);
      assert Swept(rebalance, peers, before.tenants, after.tenants);
      assert Step(stickyEndpoint, rebalance, before, Rebalanced(peers), after);
    }

    method RebalanceOpen(ready: seq<Client>, rounds: nat, ghost peers: seq<Peer>)
      returns (moves: nat, finished: bool, ghost order: seq<Key>, ghost tr: seq<Seating>)
      requires pool.Valid() && ready == pool.ReadyList() && peers == PeersOf(ready)
      requires Valid() && IndexAscending(ready) && |ready| > 1
      modifies `tenants, open.Values
      ensures pool.Valid() && pool.State() == old(pool.State()) && ready == pool.ReadyList() && peers == PeersOf(ready)
      ensures Valid() && |tr| == moves + 1
      ensures SweepContract(peers, old(tenants), tenants, rounds, finished, order, tr)
      ensures forall x :: x in open.Values ==> Handled(ready, x, old(x.Now()))
    {
      var all;
      ghost var before;
      all, order, before := ListSessions(ready);
      moves, finished, tr := RebalanceListed(ready, all, rounds, peers, order, before);
      forall x | x in open.Values
        ensures Handled(ready, x, old(x.Now()))
      {
        assert Look(HandledSeal, 0) && x in all;
        var i :| 0 <= i < |all| && all[i] == x;
      }
    }

    method RebalanceListed(ready: seq<Client>, all: seq<Session>, rounds: nat, ghost peers: seq<Peer>,
                           ghost order: seq<Key>, ghost before: seq<Holding>)
      returns (moves: nat, finished: bool, ghost tr: seq<Seating>)
      requires IndexAscending(ready) && |ready| > 1 && peers == PeersOf(ready)
      requires Registered() && Distinct(all) && |all| == |before|
      requires Listing(all, order, before, tenants) && AllHandled(ready, all, before)
      requires Seated(ready, all, Seatings(ready, all, before))
      modifies `tenants, all
      ensures Valid() && |tr| == moves + 1
      ensures SweepContract(peers, old(tenants), tenants, rounds, finished, order, tr)
      ensures AllHandled(ready, all, before)
    {
      ghost var were, s := tenants, Seatings(ready, all, before);
      moves, finished, tr := RebalanceLoop(rebalance, ready, all, rounds, Types(peers), s, before);
      RecordTenants();
      SweepEnds(ready, all, order, before, were, peers, rounds, finished, tr);
    }

    // The list of all sessions with their keys and what the sessions hold.
    ghost predicate Lists(all: seq<Session>, order: seq<Key>, before: seq<Holding>, were: map<Key, Tenant>)
      reads `open
    {
      && |order| == |all| == |before| && Distinct(order)
      && (forall x :: x in open.Values ==> x in all)
      && (forall key :: key in were ==> key in order)
      && forall i :: 0 <= i < |all| ==>
           && order[i] in open && open[order[i]] == all[i] && KeyOf(all[i]) == order[i]
           && order[i] in were && were[order[i]] == Tenant(all[i].lastRebalance, before[i].client)
    }

    // Lists, behind Look.
    ghost predicate Listing(all: seq<Session>, order: seq<Key>, before: seq<Holding>, were: map<Key, Tenant>)
      reads `open
    {
      forall k {:trigger Look(ListSeal, k)} :: Look(ListSeal, k) ==> Lists(all, order, before, were)
    }

    method ListSessions(ghost ready: seq<Client>)
      returns (all: seq<Session>, ghost order: seq<Key>, ghost before: seq<Holding>)
      requires Valid()
      ensures Registered() && Distinct(all) && (forall x :: x in all <==> x in open.Values)
      ensures Listing(all, order, before, tenants) && AllHandled(ready, all, before)
      ensures |before| == |all| && forall i :: 0 <= i < |all| ==> before[i] == all[i].Now()
      ensures Seated(ready, all, Seatings(ready, all, before))
    {
      assert Look(SessionSeal, 0);
      all := CollectSessions();
      order := seq(|all|, i requires 0 <= i < |all| => KeyOf(all[i]));
      before := seq(|all|, i requires 0 <= i < |all| reads all => all[i].Now());
      AllInList(all, order, before);
      AllSeated(ready, all, before);
    }

    lemma AllInList(all: seq<Session>, order: seq<Key>, before: seq<Holding>)
      requires Registered() && Let() && Distinct(all) && (forall x :: x in all <==> x in open.Values)
      requires |order| == |before| == |all|
      requires forall i :: 0 <= i < |all| ==> order[i] == KeyOf(all[i]) && before[i] == all[i].Now()
      ensures Listing(all, order, before, tenants)
    {
      forall i | 0 <= i < |all|
        ensures order[i] in open && open[order[i]] == all[i]
      {
        assert all[i] in all;
      }
      forall key | key in tenants
        ensures key in order
      {
        assert open[key] in all;
        var i :| 0 <= i < |all| && all[i] == open[key];
        assert order[i] == key;
      }
      assert Lists(all, order, before, tenants);
    }

    lemma AllSeated(ready: seq<Client>, all: seq<Session>, before: seq<Holding>)
      requires |before| == |all| && forall i :: 0 <= i < |all| ==> before[i] == all[i].Now()
      ensures AllHandled(ready, all, before) && Seated(ready, all, Seatings(ready, all, before))
    {
      assert EachHandled(ready, all, before);
    }

    ghost function Seatings(ready: seq<Client>, all: seq<Session>, before: seq<Holding>): (s: Seating)
      requires |before| == |all|
      ensures |s| == |all| && forall i :: 0 <= i < |all| ==>
        s[i] == Seat(all[i].prefix, all[i].lastRebalance, PlaceIn(ready, before[i].client))
    {
      seq(|all|, i requires 0 <= i < |all| =>
        Seat(all[i].prefix, all[i].lastRebalance, PlaceIn(ready, before[i].client)))
    }

    // Brings the tenants up to date with where the loop left the sessions.
    ghost method RecordTenants()
      requires Registered()
      modifies `tenants
      ensures Valid() && Let()
    {
      tenants := map key | key in open :: TenantOf(open[key]);
      assert Let();
    }

    lemma SweepEnds(ready: seq<Client>, all: seq<Session>, order: seq<Key>, before: seq<Holding>,
                    were: map<Key, Tenant>, peers: seq<Peer>, rounds: nat, finished: bool, tr: seq<Seating>)
      requires Valid() && |before| == |all| && peers == PeersOf(ready)
      requires Listing(all, order, before, were) && AllHandled(ready, all, before)
      requires tr != [] && tr[0] == Seatings(ready, all, before) && Seated(ready, all, tr[|tr| - 1])
      requires Followed(rebalance, Types(peers), tr, rounds, finished)
      ensures SweepContract(peers, were, tenants, rounds, finished, order, tr)
    {
      SeatsNow(ready, all, order, before, were, tr[|tr| - 1]);
      OthersStay(ready, all, order, before, were);
      assert Look(LoopSeal, 0);
      assert SweptBy(rebalance, peers, were, tenants, order, tr);
      assert LoopContract(peers, were, tenants, rounds, finished, order, tr);
    }

    // The sessions sit as their values say, before and after.
    lemma SeatsNow(ready: seq<Client>, all: seq<Session>, order: seq<Key>, before: seq<Holding>,
                   were: map<Key, Tenant>, last: Seating)
      requires Valid() && |before| == |all| && Listing(all, order, before, were) && Seated(ready, all, last)
      ensures Distinct(order) && forall key :: key in were ==> key in order
      ensures Seats(ready, were, order, Seatings(ready, all, before)) && Seats(ready, tenants, order, last)
    {
      assert Look(SessionSeal, 0) && Look(ListSeal, 0);
    }

    lemma OthersStay(ready: seq<Client>, all: seq<Session>, order: seq<Key>, before: seq<Holding>,
                     were: map<Key, Tenant>)
      requires Valid() && Listing(all, order, before, were) && AllHandled(ready, all, before)
      ensures SameElsewhere(ready, were, tenants)
    {
      assert Look(SessionSeal, 0) && Look(ListSeal, 0) && Look(HandledSeal, 0);
      forall key | key in tenants
        ensures key in were && were[key].since == tenants[key].since
        ensures were[key].last !in ready ==> tenants[key] == were[key]
      {
        assert open[key] in all;
        var i :| 0 <= i < |all| && all[i] == open[key];
        assert order[i] == key;
      }
    }

    // ---------- endpoints ----------

    // A call with an override by name: no ready test, and no effect on the session.
    ghost predicate NamedContract(next: string, minCgc: nat, r: Choice)
      reads pool, pool.clients
    {
      match pool.ClientNamed(next)
      case None => r == NoEndpointMatches
      case Some(c) => r == if c.custodyGroupCount < minCgc then CgcTooLow else Chose(c)
    }

    // The session's endpoint, if sessions stick to theirs and it is still ready.
    method StickyChoice(session: Session) returns (endpoint: Client?)
      requires pool.Valid()
      modifies pool`forkCache, pool`memo
      ensures pool.Valid()
      ensures CandidateContract(session.lastPoolClient, endpoint)
      ensures CoherenceContract(old(pool.State()), pool.State())
    {
      ghost var before := pool.State();
      endpoint := null;
      if stickyEndpoint {
        var ready := pool.IsClientReady(session.lastPoolClient);
        if ready {
          endpoint := session.lastPoolClient;
        }
      }
      QueryIsCoherent(before, pool.State());
    }

    // The scheduler's choice among the ready endpoints, which are the peers.
    method PickEndpoint(wanted: ClientType, minCgc: nat) returns (endpoint: Client?, ghost peers: seq<Peer>)
      requires pool.Valid()
      modifies pool`forkCache, pool`memo, pool`rrLastIndexes
      ensures pool.Valid() && (old(pool.forkCache).Some? ==> pool.forkCache == old(pool.forkCache))
      ensures peers == PeersOf(pool.ReadyList())
      ensures PickContract(peers, wanted, minCgc, old(pool.rrLastIndexes), endpoint, pool.rrLastIndexes)
      ensures CoherenceContract(old(pool.State()), pool.State())
    {
      ghost var before := pool.State();
      endpoint := pool.GetReadyEndpoint(wanted, minCgc);
      QueryIsCoherent(before, pool.State());
      peers := PeersOf(pool.ReadyList());
      EligiblePeers(pool.ReadyList(), wanted, minCgc);
    }

    // Schedules an endpoint, and moves the session there unless it asks for blobs.
    method ScheduleEndpoint(session: Session, wanted: ClientType, minCgc: nat)
      returns (endpoint: Client?, ghost peers: seq<Peer>)
      requires pool.Valid()
      modifies session`lastPoolClient, session`contexts, session`cancelled
      modifies pool`forkCache, pool`memo, pool`rrLastIndexes
      ensures pool.Valid() && (old(pool.forkCache).Some? ==> pool.forkCache == old(pool.forkCache))
      ensures peers == PeersOf(pool.ReadyList())
      ensures PickContract(peers, wanted, minCgc, old(pool.rrLastIndexes), endpoint, pool.rrLastIndexes)
      ensures session.Now() == if minCgc == 0 then old(session.Now()).MovedTo(endpoint) else old(session.Now())
      ensures CoherenceContract(old(pool.State()), pool.State())
    {
      endpoint, peers := PickEndpoint(wanted, minCgc);
      if minCgc == 0 {
        RouteSession(session, endpoint, peers);
      }
    }

    method RouteSession(session: Session, endpoint: Client?, ghost peers: seq<Peer>)
      requires pool.Valid() && peers == PeersOf(pool.ReadyList())
      modifies session`lastPoolClient, session`contexts, session`cancelled
      ensures pool.Valid() && pool.State() == old(pool.State()) && peers == PeersOf(pool.ReadyList())
      ensures session.Now() == old(session.Now()).MovedTo(endpoint)
    {
      ghost var ready := pool.ReadyList();
      session.SetLastPoolClient(endpoint);
      assert pool.ReadyList() == ready;
      assert PeersOf(ready) == peers;
    }

    // Uses the endpoint the call comes with if it suits, and schedules one otherwise.
    method UseOrSchedule(session: Session, wanted: ClientType, minCgc: nat, candidate: Client?,
                         ghost clientType: ClientType, ghost ov: Override)
      returns (endpoint: Client?, ghost peers: seq<Peer>)
      requires pool.Valid()
      requires StartContract(clientType, ov, session.lastPoolClient, wanted, candidate)
      modifies session`lastPoolClient, session`contexts, session`cancelled
      modifies pool`forkCache, pool`memo, pool`rrLastIndexes
      ensures pool.Valid() && peers == PeersOf(pool.ReadyList())
      ensures session.Now() == old(session.Now()).MovedTo(session.lastPoolClient)
      ensures CoherenceContract(old(pool.State()), pool.State())
      ensures CallContract(peers, clientType, ov, minCgc, old(TenantOf(session)), old(pool.rrLastIndexes), endpoint,
                           TenantOf(session), pool.rrLastIndexes)
    {
      ghost var before, cursors := TenantOf(session), pool.rrLastIndexes;
      endpoint := candidate;
      peers := PeersOf(pool.ReadyList());
      if minCgc > 0 && endpoint != null && endpoint.custodyGroupCount < minCgc {
        endpoint := null;
      }
      StaysMeans(pool.ReadyList(), before.last, wanted, minCgc);
      if endpoint == null || (wanted != Unspecified && endpoint.clientType != wanted) {
        endpoint, peers := ScheduleEndpoint(session, wanted, minCgc);
        StaysMeans(pool.ReadyList(), before.last, wanted, minCgc);
        ScheduledIsServed(peers, clientType, ov, minCgc, before, cursors, endpoint, TenantOf(session),
                          pool.rrLastIndexes, wanted);
      }
    }

    lemma ScheduledIsServed(peers: seq<Peer>, clientType: ClientType, ov: Override, minCgc: nat,
                            before: Tenant, cursors: Cursors, answer: Client?, after: Tenant, cursorsAfter: Cursors,
                            wanted: ClientType)
      requires Asks(stickyEndpoint, peers, clientType, before.last, ov, minCgc) == Some(wanted)
      requires PickContract(peers, wanted, minCgc, cursors, answer, cursorsAfter)
      requires after == if minCgc == 0 then before.(last := answer) else before
      ensures CallContract(peers, clientType, ov, minCgc, before, cursors, answer, after, cursorsAfter)
    {
    }

    // next is the value of the override header, or else of the override query argument; empty if neither is set.
    method GetEndpointForCall(path: string, next: string, session: Session, clientType: ClientType)
      returns (r: Choice, ghost peers: seq<Peer>)
      requires pool.Valid()
      modifies session`lastPoolClient, session`contexts, session`cancelled
      modifies pool`forkCache, pool`memo, pool`rrLastIndexes
      ensures pool.Valid() && peers == PeersOf(pool.ReadyList())
      ensures AnswerLaw(path, next, clientType, r)
      ensures "/eth/v1/beacon/blobs/" <= path && r.Chose? && r.endpoint != null ==> r.endpoint.custodyGroupCount >= 64
      ensures !("/eth/v1/beacon/blobs/" <= path) && r == Chose(null) ==>
        forall c :: c in pool.ReadyList() ==>
          if next == "" then clientType != Unspecified && c.clientType != clientType
          else c.clientType != ParseClientType(next)
      ensures "/eth/v1/beacon/blobs/" <= path || (next != "" && ParseClientType(next) == Unknown) ==>
        session.Now() == old(session.Now())
      ensures !("/eth/v1/beacon/blobs/" <= path) && (next == "" || ParseClientType(next) != Unknown) ==>
        r == Chose(session.lastPoolClient)
      ensures if KeepsLast(path, next, clientType, old(session.lastPoolClient))
              then r == Chose(old(session.lastPoolClient)) && session.Now() == old(session.Now())
                   && pool.rrLastIndexes == old(pool.rrLastIndexes)
              else TurnLaw(path, next, clientType, AnswerOf(r), old(pool.rrLastIndexes), pool.rrLastIndexes)
      ensures if session.lastPoolClient == old(session.lastPoolClient) then session.Now() == old(session.Now())
              else session.contexts == map[]
                   && session.cancelled == old(session.cancelled) + multiset(old(session.contexts).Items)
      ensures CoherenceContract(old(pool.State()), pool.State())
      ensures (next == "" || ParseClientType(next) != Unknown) && r.endpoint != null && pool.State().Coherent() ==>
        pool.OnTop(r.endpoint)
      ensures CallContract(peers, clientType, OverrideOf(next), MinCgc(path), old(TenantOf(session)),
                           old(pool.rrLastIndexes), AnswerOf(r), TenantOf(session), pool.rrLastIndexes)
      ensures clientType == session.prefix ==>
        HomeContract(pool.ReadyList(), next, MinCgc(path), session.prefix, old(session.lastPoolClient),
                     session.lastPoolClient)
    {
      ghost var before, cursors := TenantOf(session), pool.rrLastIndexes;
      r, peers := ChooseEndpoint(path, next, session, clientType);
      NamedMeans(path, next, r);
      AnswerNow(path, next, clientType, before, cursors, AnswerOf(r), TenantOf(session));
      KeepsOrTurns(path, next, clientType, before, cursors, AnswerOf(r), TenantOf(session));
      HomeNow(next, MinCgc(path), clientType, before, cursors, AnswerOf(r), TenantOf(session));
    }

    method ChooseEndpoint(path: string, next: string, session: Session, clientType: ClientType)
      returns (r: Choice, ghost peers: seq<Peer>)
      requires pool.Valid()
      modifies session`lastPoolClient, session`contexts, session`cancelled
      modifies pool`forkCache, pool`memo, pool`rrLastIndexes
      ensures pool.Valid() && peers == PeersOf(pool.ReadyList())
      ensures if IsNamed(next) then NamedContract(next, MinCgc(path), r) else r.Chose?
      ensures session.Now() == old(session.Now()).MovedTo(session.lastPoolClient)
      ensures CoherenceContract(old(pool.State()), pool.State())
      ensures CallContract(peers, clientType, OverrideOf(next), MinCgc(path), old(TenantOf(session)),
                           old(pool.rrLastIndexes), AnswerOf(r), TenantOf(session), pool.rrLastIndexes)
    {
      ghost var before, cursors := TenantOf(session), pool.rrLastIndexes;
      var minCgc := MinCgc(path);
      var wanted, endpoint;
      r, wanted, endpoint := StartCall(session, next, minCgc, clientType);
      if r == Chose(null) {
        endpoint, peers := UseOrSchedule(session, wanted, minCgc, endpoint, clientType, OverrideOf(next));
        r := Chose(endpoint);
      } else {
        peers := PeersOf(pool.ReadyList());
        NamedIsServed(peers, clientType, minCgc, before, cursors, AnswerOf(r));
      }
    }

    lemma NamedMeans(path: string, next: string, r: Choice)
      requires if IsNamed(next) then NamedContract(next, MinCgc(path), r) else r.Chose?
      ensures next != "" && ParseClientType(next) == Unknown ==>
        match r
        case NoEndpointMatches => forall c :: c in pool.clients ==> c.name != next
        case CgcTooLow =>
          "/eth/v1/beacon/blobs/" <= path && exists c :: c in pool.clients && c.name == next && c.custodyGroupCount < 64
        case Chose(e) =>
          && e != null && e in pool.clients && e.name == next
          && ("/eth/v1/beacon/blobs/" <= path ==> e.custodyGroupCount >= 64)
    {
    }

    // What the answer and the session are, in terms of the arguments and the ready endpoints alone.
    lemma AnswerNow(path: string, next: string, clientType: ClientType, before: Tenant, cursors: Cursors,
                    answer: Client?, after: Tenant)
      requires pool.Valid()
      requires CallContract(PeersOf(pool.ReadyList()), clientType, OverrideOf(next), MinCgc(path), before, cursors,
                            answer, after, pool.rrLastIndexes)
      ensures "/eth/v1/beacon/blobs/" <= path || (next != "" && ParseClientType(next) == Unknown) ==> after == before
      ensures next == "" || ParseClientType(next) != Unknown ==>
        var wanted := if next == "" then clientType else ParseClientType(next);
        && ("/eth/v1/beacon/blobs/" <= path || after.last == answer)
        && (answer != null ==>
              && answer in pool.ReadyList() && (wanted == Unspecified || answer.clientType == wanted)
              && ("/eth/v1/beacon/blobs/" <= path ==> answer.custodyGroupCount >= 64)
              && (pool.State().Coherent() ==> pool.OnTop(answer)))
        && (answer == null ==> forall c :: c in pool.ReadyList() ==>
              || (wanted != Unspecified && c.clientType != wanted)
              || ("/eth/v1/beacon/blobs/" <= path && c.custodyGroupCount < 64))
    {
      ghost var ready, peers := pool.ReadyList(), PeersOf(pool.ReadyList());
      pool.ReadyListAscends();
      assert Look(CallSeal, 0);
      if !IsNamed(next) {
        ServedSuits(stickyEndpoint, peers, clientType, OverrideOf(next), MinCgc(path), before, cursors, answer, after,
                    pool.rrLastIndexes);
        SuitingMeans(ready, if next == "" then clientType else ParseClientType(next), MinCgc(path), answer);
        if answer != null && pool.State().Coherent() {
          pool.ReadyOnTop(answer);
        }
      }
    }

    lemma KeepsOrTurns(path: string, next: string, clientType: ClientType, before: Tenant, cursors: Cursors,
                       answer: Client?, after: Tenant)
      requires pool.Valid()
      requires CallContract(PeersOf(pool.ReadyList()), clientType, OverrideOf(next), MinCgc(path), before, cursors,
                            answer, after, pool.rrLastIndexes)
      ensures if KeepsLast(path, next, clientType, before.last)
              then answer == before.last && after == before && pool.rrLastIndexes == cursors
              else TurnLaw(path, next, clientType, answer, cursors, pool.rrLastIndexes)
    {
      pool.ReadyListAscends();
      StaysMeans(pool.ReadyList(), before.last, clientType, MinCgc(path));
      assert Look(CallSeal, 0);
      if !IsNamed(next) && !KeepsLast(path, next, clientType, before.last) {
        TurnNow(path, next, clientType, answer, cursors);
      }
    }

    // A call of a route: the session of its address and prefix, and an endpoint unless the rate limit stops it.
    method ProcessCall(ip: string, prefix: ClientType, path: string, next: string, now: int, limited: bool)
      returns (r: Option<Choice>, ghost peers: seq<Peer>)
      requires pool.Valid() && Valid()
      modifies `sessions, `open, `tenants, sessions.Values, open.Values
      modifies pool`forkCache, pool`memo, pool`rrLastIndexes
      ensures pool.Valid() && Valid() && (r.None? <==> limited) && peers == PeersOf(pool.ReadyList())
      ensures StepContract(old(State()), CallEvent(Key(ip, prefix), now, peers, path, next, r), State())
      ensures r.Some? ==> AnswerContract(path, next, prefix, r.value)
      ensures var key := Key(ip, prefix);
              var was := if key in old(tenants) then old(tenants)[key] else Tenant(now, null);
              tenants == old(tenants)[key := if limited || KeepsEndpoint(path, next) then was
                                             else Tenant(was.since, AnswerOf(r.value))]
    {
      var session := GetSessionForRequest(ip, prefix, now);
      r, peers := None, PeersOf(pool.ReadyList());
      ghost var visited := State();
      if !limited {
        var choice;
        choice, peers := ServeSession(Key(ip, prefix), session, path, next);
        r := Some(choice);
      }
      pool.ReadyListAscends();
      CallIsStep(Key(ip, prefix), now, peers, path, next, r, old(State()), visited, State());
      EffectIs(Key(ip, prefix), now, path, next, r, old(State()), visited.tenants, tenants);
    }

    lemma EffectIs(key: Key, now: int, path: string, next: string, r: Option<Choice>, before: ProxyState,
                   visited: map<Key, Tenant>, after: map<Key, Tenant>)
      requires visited == before.Visited(key, now).tenants
      requires match r
               case None => after == visited
               case Some(choice) =>
                 && key in after && after == visited[key := after[key]]
                 && after[key] == if KeepsEndpoint(path, next) then visited[key]
                                  else Tenant(visited[key].since, AnswerOf(choice))
      ensures var was := if key in before.tenants then before.tenants[key] else Tenant(now, null);
              after == before.tenants[key := if r.None? || KeepsEndpoint(path, next) then was
                                             else Tenant(was.since, AnswerOf(r.value))]
    {
    }

    method ServeSession(ghost key: Key, session: Session, path: string, next: string)
      returns (r: Choice, ghost peers: seq<Peer>)
      requires pool.Valid() && Valid() && key in open && open[key] == session && session.prefix == key.prefix
      modifies session`lastPoolClient, session`contexts, session`cancelled, `tenants
      modifies pool`forkCache, pool`memo, pool`rrLastIndexes
      ensures pool.Valid() && Valid() && peers == PeersOf(pool.ReadyList())
      ensures key in old(tenants) && key in tenants && tenants == old(tenants)[key := tenants[key]]
      ensures AnswerContract(path, next, key.prefix, r)
      ensures tenants[key] ==
        if KeepsEndpoint(path, next) then old(tenants)[key] else Tenant(old(tenants)[key].since, AnswerOf(r))
      ensures CallContract(peers, key.prefix, OverrideOf(next), MinCgc(path), old(tenants)[key],
                           old(pool.rrLastIndexes), AnswerOf(r), tenants[key], pool.rrLastIndexes)
    {
      OthersLet(key);
      r, peers := GetEndpointForCall(path, next, session, session.prefix);
      RecordTenant(key, peers);
    }

    // Valid but for the tenant of one session, behind Look.
    ghost predicate LetExcept(key: Key)
      requires key in open
      reads `sessions, `open, `tenants, sessions.Values, set x | x in open.Values && x != open[key]
    {
      forall n {:trigger Look(SessionSeal, n)} :: Look(SessionSeal, n) ==>
        && Registered()
        && (forall k :: k in tenants <==> k in open)
        && forall k :: k in open && k != key ==> open[k] != open[key] && tenants[k] == TenantOf(open[k])
    }

    lemma OthersLet(key: Key)
      requires Valid() && key in open
      ensures LetExcept(key) && key in tenants && tenants[key] == TenantOf(open[key])
    {
      assert Look(SessionSeal, 0);
    }

    ghost method RecordTenant(key: Key, peers: seq<Peer>)
      requires pool.Valid() && peers == PeersOf(pool.ReadyList())
      requires key in open && LetExcept(key)
      modifies `tenants
      ensures pool.Valid() && peers == PeersOf(pool.ReadyList())
      ensures Valid() && tenants == old(tenants)[key := TenantOf(open[key])]
    {
      ghost var ready := pool.ReadyList();
      LetTenant(key);
      assert pool.ReadyList() == ready;
      assert PeersOf(ready) == peers;
    }

    ghost method LetTenant(key: Key)
      requires key in open && LetExcept(key)
      modifies `tenants
      ensures Valid() && tenants == old(tenants)[key := TenantOf(open[key])]
    {
      assert Look(SessionSeal, 0);
      tenants := tenants[key := TenantOf(open[key])];
      assert Let();
    }

    ghost function CallEvent(key: Key, now: int, peers: seq<Peer>, path: string, next: string, r: Option<Choice>): Event
    {
      match r
      case None => Limited(key, now)
      case Some(choice) => Called(key, now, peers, OverrideOf(next), MinCgc(path), AnswerOf(choice))
    }

    lemma CallIsStep(key: Key, now: int, peers: seq<Peer>, path: string, next: string, r: Option<Choice>,
                     before: ProxyState, visited: ProxyState, after: ProxyState)
      requires visited == before.Visited(key, now) && IndexAscending(Clients(peers))
      requires match r
               case None => after == visited
               case Some(choice) =>
                 && key in after.tenants && after.tenants == visited.tenants[key := after.tenants[key]]
                 && CallContract(peers, key.prefix, OverrideOf(next), MinCgc(path), visited.tenants[key],
                                 visited.cursors, AnswerOf(choice), after.tenants[key], after.cursors)
      ensures StepContract(before, CallEvent(key, now, peers, path, next, r), after)
    {
      assert Look(CallSeal, 0);
      assert Step(stickyEndpoint, rebalance, before, CallEvent(key, now, peers, path, next, r), after);
    }

    // The sticky test and the override: an answer by name, or the type wanted and the endpoint to start from.
    method StartCall(session: Session, next: string, minCgc: nat, clientType: ClientType)
      returns (r: Choice, wanted: ClientType, endpoint: Client?)
      requires pool.Valid()
      modifies pool`forkCache, pool`memo
      ensures pool.Valid()
      ensures CoherenceContract(old(pool.State()), pool.State())
      ensures IsNamed(next) ==> NamedContract(next, minCgc, r) && r != Chose(null)
      ensures !IsNamed(next) ==> r == Chose(null)
      ensures next == "" ==> wanted == clientType && CandidateContract(session.lastPoolClient, endpoint)
      ensures next != "" && !IsNamed(next) ==> wanted == ParseClientType(next) && endpoint == null
    {
      r, wanted := Chose(null), clientType;
      endpoint := StickyChoice(session);
      if next != "" {
        r, wanted := ResolveOverride(next, minCgc);
        endpoint := null;
      }
    }

    ghost predicate StartContract(clientType: ClientType, ov: Override, last: Client?, wanted: ClientType,
                                  candidate: Client?)
      reads pool`forkCache, if pool.forkCache.Some? then pool.forkCache.value else []
    {
      match ov
      case ByName => false
      case OfType(t) => candidate == null && wanted == t
      case NoOverride => wanted == clientType && CandidateContract(last, candidate)
    }

    lemma HomeNow(next: string, minCgc: nat, prefix: ClientType, before: Tenant, cursors: Cursors, answer: Client?,
                  after: Tenant)
      requires pool.Valid()
      requires CallContract(PeersOf(pool.ReadyList()), prefix, OverrideOf(next), minCgc, before, cursors, answer,
                            after, pool.rrLastIndexes)
      ensures HomeContract(pool.ReadyList(), next, minCgc, prefix, before.last, after.last)
    {
      ghost var ready, cursorsAfter := pool.ReadyList(), pool.rrLastIndexes;
      pool.ReadyListAscends();
      assert Look(CallSeal, 0);
      HomeAfterCall(stickyEndpoint, ready, prefix, next, minCgc, before, cursors, answer, after, cursorsAfter);
    }

    lemma NamedIsServed(peers: seq<Peer>, clientType: ClientType, minCgc: nat, tenant: Tenant, cursors: Cursors,
                        answer: Client?)
      ensures CallContract(peers, clientType, ByName, minCgc, tenant, cursors, answer, tenant, cursors)
    {
    }

    // What the sticky test hands on: the session's endpoint if it is to be kept, else nothing.
    ghost predicate CandidateContract(last: Client?, candidate: Client?)
      reads pool`forkCache, if pool.forkCache.Some? then pool.forkCache.value else []
    {
      if candidate == null then
        stickyEndpoint && last != null ==> pool.forkCache.Some? && last !in pool.ReadyList()
      else
        candidate == last && stickyEndpoint && pool.forkCache.Some? && candidate in pool.ReadyList()
    }

    lemma StaysMeans(ready: seq<Client>, last: Client?, wanted: ClientType, minCgc: nat)
      ensures Stays(stickyEndpoint, PeersOf(ready), last, wanted, minCgc) <==>
                stickyEndpoint && last != null && last in ready && Suits(last, wanted, minCgc)
    {
      if last != null && last in ready {
        var i :| 0 <= i < |ready| && ready[i] == last;
        assert PeersOf(ready)[i] == PeerOf(last);
      }
    }

    // A type override starts without an endpoint; a name override fixes it, and lifts the type restriction.
    method ResolveOverride(next: string, minCgc: nat) returns (r: Choice, wanted: ClientType)
      requires next != ""
      ensures IsNamed(next) ==> NamedContract(next, minCgc, r) && wanted == Unspecified
      ensures !IsNamed(next) ==> r == Chose(null) && wanted == ParseClientType(next)
      ensures IsNamed(next) && r.Chose? ==> r.endpoint != null && Suits(r.endpoint, wanted, minCgc)
    {
      wanted := ParseClientType(next);
      if wanted != Unknown {
        return Chose(null), wanted;
      }
      wanted := Unspecified;
      var client := pool.GetEndpointByName(next);
      if client == null {
        r := NoEndpointMatches;
      } else if client.custodyGroupCount < minCgc {
        r := CgcTooLow;
      } else {
        r := Chose(client);
      }
    }

    // What a call on a route gets: by name that endpoint, otherwise a ready one of the type in force, for blobs
    // one with enough custody groups, and none or an error only for want of such.
    ghost predicate AnswerLaw(path: string, next: string, clientType: ClientType, r: Choice)
      reads pool`clients, pool.clients
      reads pool`forkCache, if pool.forkCache.Some? then pool.forkCache.value else []
      reads pool.ReadyList()
    {
      if next != "" && ParseClientType(next) == Unknown then
        match r
        case NoEndpointMatches => forall c :: c in pool.clients ==> c.name != next
        case CgcTooLow =>
          && "/eth/v1/beacon/blobs/" <= path
          && exists c :: c in pool.clients && c.name == next && c.custodyGroupCount < 64
        case Chose(e) =>
          && e != null && e in pool.clients && e.name == next
          && ("/eth/v1/beacon/blobs/" <= path ==> e.custodyGroupCount >= 64)
      else
        var wanted := if next == "" then clientType else ParseClientType(next);
        && r.Chose?
        && (r.endpoint != null ==>
              && r.endpoint in pool.ReadyList() && (wanted == Unspecified || r.endpoint.clientType == wanted)
              && ("/eth/v1/beacon/blobs/" <= path ==> r.endpoint.custodyGroupCount >= 64))
        && (r.endpoint == null ==> forall c :: c in pool.ReadyList() ==>
              || (wanted != Unspecified && c.clientType != wanted)
              || ("/eth/v1/beacon/blobs/" <= path && c.custodyGroupCount < 64))
    }

    // The call keeps the session's endpoint: it asks for no other, and this one is ready and serves it.
    ghost predicate KeepsLast(path: string, next: string, clientType: ClientType, last: Client?)
      reads pool`forkCache, if pool.forkCache.Some? then pool.forkCache.value else []
      reads if last == null then {} else {last}
    {
      && next == "" && stickyEndpoint && last != null && last in pool.ReadyList()
      && (clientType == Unspecified || last.clientType == clientType)
      && ("/eth/v1/beacon/blobs/" <= path ==> last.custodyGroupCount >= 64)
    }

    // Any other call takes its turn: the answer follows the cursor of the type in force around the ring of the ready
    // endpoints that serve the call, and the cursor moves there. A call by name takes no turn.
    ghost predicate TurnLaw(path: string, next: string, clientType: ClientType, answer: Client?, before: Cursors,
                            after: Cursors)
      reads pool`forkCache, if pool.forkCache.Some? then pool.forkCache.value else []
      reads pool.ReadyList()
    {
      if answer == null || (next != "" && ParseClientType(next) == Unknown) then after == before
      else
        var wanted := if next == "" then clientType else ParseClientType(next);
        var cursor := if wanted in before then before[wanted] else 0;
        && after == before[wanted := answer.clientIdx]
        && forall c ::
             && c in pool.ReadyList() && (wanted == Unspecified || c.clientType == wanted)
             && ("/eth/v1/beacon/blobs/" <= path ==> c.custodyGroupCount >= 64)
             ==> if answer.clientIdx > cursor then c.clientIdx > cursor ==> answer.clientIdx <= c.clientIdx
                 else c.clientIdx <= cursor && answer.clientIdx <= c.clientIdx
    }

    lemma TurnNow(path: string, next: string, clientType: ClientType, answer: Client?, before: Cursors)
      requires IndexAscending(pool.ReadyList()) && !IsNamed(next)
      requires var wanted := if next == "" then clientType else ParseClientType(next);
               Picked(PeersOf(pool.ReadyList()), wanted, MinCgc(path), before, answer, pool.rrLastIndexes)
      ensures TurnLaw(path, next, clientType, answer, before, pool.rrLastIndexes)
    {
      var wanted := if next == "" then clientType else ParseClientType(next);
      EligiblePeers(pool.ReadyList(), wanted, MinCgc(path));
      pool.PickInFull(pool.ReadyList(), wanted, MinCgc(path), before, answer, pool.rrLastIndexes);
    }

    // AnswerLaw, behind Look.
    ghost predicate AnswerContract(path: string, next: string, clientType: ClientType, r: Choice)
      reads pool`clients, pool.clients
      reads pool`forkCache, if pool.forkCache.Some? then pool.forkCache.value else []
      reads pool.ReadyList()
    {
      forall k {:trigger Look(CallSeal, k)} :: Look(CallSeal, k) ==> AnswerLaw(path, next, clientType, r)
    }
  }
}
