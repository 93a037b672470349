/** proxy/session.go: sessions, their active connections, and the groups that hold them by prefix. */
module Sessions {
  import opened Base
  import opened Pools

  // What a caller registers for a running connection; only its identity matters.
  type CancelFunc = nat

  lemma ItemsWithout(m: map<nat, CancelFunc>, id: nat)
    requires id in m
    ensures multiset(m.Items) == multiset((m - {id}).Items) + multiset{(id, m[id])}
  {
    var rest, item := (m - {id}).Items, (id, m[id]);
    forall x
      ensures x in m.Items <==> x in rest + {item}
    {
      assert x in m.Items <==> x.0 in m && m[x.0] == x.1;
      assert x in rest <==> x.0 in m - {id} && (m - {id})[x.0] == x.1;
    }
    assert m.Items == rest + {item} && item !in rest;
  }

  // Where a session is, what it runs there, and what was cancelled.
  datatype Holding = Holding(client: Client?, contexts: map<nat, CancelFunc>, cancelled: multiset<(nat, CancelFunc)>)
  {
    // Leaving an endpoint cancels what runs on it; staying changes nothing.
    function MovedTo(other: Client?): Holding
    {
      if other == client then this else Holding(other, map[], cancelled + multiset(contexts.Items))
    }
  }

  class SessionGroup {
    const ipAddr: string
    var sessions: map<ClientType, Session>

    constructor (ipAddr: string)
      ensures this.ipAddr == ipAddr && sessions == map[]
    {
      this.ipAddr := ipAddr;
      sessions := map[];
    }
  }

  class Session {
    const group: SessionGroup
    const prefix: ClientType
    const lastRebalance: int  // set when the session is created, and never again
    var lastPoolClient: Client?
    var contexts: map<nat, CancelFunc>
    var nextID: nat
    ghost var cancelled: multiset<(nat, CancelFunc)>  // every call of a registered cancel function

    constructor (group: SessionGroup, prefix: ClientType, now: int)
      ensures this.group == group && this.prefix == prefix && lastRebalance == now
      ensures Valid() && lastPoolClient == null && contexts == map[] && cancelled == multiset{}
    {
      this.group := group;
      this.prefix := prefix;
      lastRebalance := now;
      lastPoolClient := null;
      contexts := map[];
      nextID := 0;
      cancelled := multiset{};
    }

    // Registered ids have been handed out, so the next one is free.
    ghost predicate Valid()
      reads this
    {
      forall id :: id in contexts ==> id < nextID
    }

    ghost function Now(): Holding
      reads this
    {
      Holding(lastPoolClient, contexts, cancelled)
    }

    method AddActiveContext(cancel: CancelFunc) returns (id: nat)
      requires Valid()
      modifies `contexts, `nextID
      ensures Valid() && id !in old(contexts) && nextID > old(nextID)
      ensures contexts == old(contexts)[id := cancel]
    {
      id := nextID;
      nextID := nextID + 1;
      contexts := contexts[id := cancel];
    }

    method RemoveActiveContext(id: nat)
      requires Valid()
      modifies `contexts
      ensures Valid() && contexts == old(contexts) - {id}
    {
      contexts := contexts - {id};
    }

    // Calls every registered cancel function once and empties the registry.
    method CancelActiveConnections()
      modifies `contexts, `cancelled
      ensures contexts == map[]
      ensures cancelled == old(cancelled) + multiset(old(contexts).Items)
    {
      while contexts != map[]
        invariant cancelled + multiset(contexts.Items) == old(cancelled) + multiset(old(contexts).Items)
        decreases |contexts|
      {
        var id :| id in contexts;
        ItemsWithout(contexts, id);
        cancelled := cancelled + multiset{(id, contexts[id])};
        contexts := contexts - {id};
      }
    }

    method SetLastPoolClient(client: Client?)
      modifies `lastPoolClient, `contexts, `cancelled
      ensures Now() == old(Now()).MovedTo(client)
      ensures lastPoolClient == client
      ensures if client == old(lastPoolClient) then contexts == old(contexts) && cancelled == old(cancelled)
              else contexts == map[] && cancelled == old(cancelled) + multiset(old(contexts).Items)
    {
      if lastPoolClient != client {
        CancelActiveConnections();
        lastPoolClient := client;
      }
    }
  }
}
