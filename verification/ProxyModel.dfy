/**
 * The proxy as a state machine on values: which endpoint a call gets, what it does to its session and to the
 * scheduler's cursors, what a rebalance sweep does to all sessions, and where sessions of a client-specific
 * route are after any run of these steps.
 */
module ProxyModel {
  import opened Base
  import opened Pools
  import opened Scheduler
  import opened Rebalance
  import opened Rebalancing

  // A ready endpoint as a call finds it.
  datatype Peer = Peer(client: Client, clientType: ClientType, custodyGroupCount: nat)

  function Clients(peers: seq<Peer>): (cs: seq<Client>)
    ensures |cs| == |peers| && forall i :: 0 <= i < |peers| ==> cs[i] == peers[i].client
  {
    seq(|peers|, i requires 0 <= i < |peers| => peers[i].client)
  }

  function Types(peers: seq<Peer>): (ts: seq<ClientType>)
    ensures |ts| == |peers| && forall i :: 0 <= i < |peers| ==> ts[i] == peers[i].clientType
  {
    seq(|peers|, i requires 0 <= i < |peers| => peers[i].clientType)
  }

  // What an override asks for: a client type, or an endpoint by its name.
  datatype Override = NoOverride | OfType(clientType: ClientType) | ByName

  // Sessions are filed under the address of the caller and the prefix of the route.
  datatype Key = Key(ip: string, prefix: ClientType)

  datatype Tenant = Tenant(since: int, last: Client?)

  datatype ProxyState = ProxyState(tenants: map<Key, Tenant>, cursors: Cursors)
  {
    // A session is opened by its first request.
    function Visited(key: Key, now: int): ProxyState
    {
      if key in tenants then this else this.(tenants := tenants[key := Tenant(now, null)])
    }
  }

  // ---------- one call ----------

  predicate Suitable(p: Peer, wanted: ClientType, minCgc: nat)
  {
    MayUse(wanted, p.clientType) && p.custodyGroupCount >= minCgc
  }

  ghost function Eligible(peers: seq<Peer>, wanted: ClientType, minCgc: nat): set<nat>
  {
    set p | p in peers && Suitable(p, wanted, minCgc) :: p.client.clientIdx
  }

  // The session's endpoint is to be reused.
  ghost predicate Stays(sticky: bool, peers: seq<Peer>, last: Client?, wanted: ClientType, minCgc: nat)
  {
    sticky && exists p :: p in peers && p.client == last && Suitable(p, wanted, minCgc)
  }

  // The type the scheduler is asked for, if the call gets that far.
  ghost function Asks(sticky: bool, peers: seq<Peer>, prefix: ClientType, last: Client?, ov: Override, minCgc: nat)
    : Option<ClientType>
  {
    match ov
    case ByName => None
    case OfType(t) => Some(t)
    case NoOverride => if Stays(sticky, peers, last, prefix, minCgc) then None else Some(prefix)
  }

  ghost predicate Picked(peers: seq<Peer>, wanted: ClientType, minCgc: nat, cursors: Cursors, answer: Client?,
                         after: Cursors)
  {
    var call := Call(wanted, Eligible(peers, wanted, minCgc), IndexOf(answer));
    && (answer != null ==> answer in Clients(peers))
    && Answers(cursors, call)
    && after == After(cursors, call)
  }

  // A call on a session: a scheduled endpoint becomes the session's, unless the call is for blobs; a call that
  // is not scheduled changes nothing.
  ghost predicate Served(sticky: bool, peers: seq<Peer>, prefix: ClientType, ov: Override, minCgc: nat,
                         before: Tenant, cursors: Cursors, answer: Client?, after: Tenant, cursorsAfter: Cursors)
  {
    match Asks(sticky, peers, prefix, before.last, ov, minCgc)
    case None => after == before && cursorsAfter == cursors && (ov.NoOverride? ==> answer == before.last)
    case Some(wanted) =>
      && Picked(peers, wanted, minCgc, cursors, answer, cursorsAfter)
      && after == if minCgc == 0 then before.(last := answer) else before
  }

  // ---------- one sweep ----------

  ghost function SeatOf(clients: seq<Client>, key: Key, tenant: Tenant): Seat
  {
    Seat(key.prefix, tenant.since, PlaceIn(clients, tenant.last))
  }

  ghost predicate Seats(clients: seq<Client>, tenants: map<Key, Tenant>, order: seq<Key>, s: Seating)
  {
    && |s| == |order|
    && forall i :: 0 <= i < |order| ==> order[i] in tenants && s[i] == SeatOf(clients, order[i], tenants[order[i]])
  }

  // tr is a run of the rebalance loop over all sessions, and these sit as it leaves them.
  ghost predicate SweptBy(cfg: Config, peers: seq<Peer>, before: map<Key, Tenant>, after: map<Key, Tenant>,
                          order: seq<Key>, tr: seq<Seating>)
  {
    && Distinct(order) && (forall k :: k in before ==> k in order)
    && Trace(cfg, Types(peers), tr)
    && Seats(Clients(peers), before, order, tr[0])
    && Seats(Clients(peers), after, order, tr[|tr| - 1])
    && SameElsewhere(Clients(peers), before, after)
  }

  // The same sessions, and those that were not on any of the clients are where they were.
  ghost predicate SameElsewhere(clients: seq<Client>, before: map<Key, Tenant>, after: map<Key, Tenant>)
  {
    && (forall k :: k in after <==> k in before)
    && forall k :: k in before ==>
         after[k].since == before[k].since && (before[k].last !in clients ==> after[k] == before[k])
  }

  ghost predicate Swept(cfg: Config, peers: seq<Peer>, before: map<Key, Tenant>, after: map<Key, Tenant>)
  {
    if |peers| <= 1 then after == before
    else exists order, tr :: SweptBy(cfg, peers, before, after, order, tr)
  }

  // ---------- steps and runs ----------

  // Of a call: when and for whom, the ready endpoints it finds, what it asks for, and its answer.
  datatype Event =
    | Limited(key: Key, now: int)
    | Called(key: Key, now: int, peers: seq<Peer>, ov: Override, minCgc: nat, answer: Client?)
    | Rebalanced(peers: seq<Peer>)
    | Expired(keys: set<Key>)

  // The peers are in index order, and each has its type.
  ghost predicate KnownPeers(types: map<Client, ClientType>, peers: seq<Peer>)
  {
    IndexAscending(Clients(peers)) && Records(types, peers)
  }

  ghost predicate Records(types: map<Client, ClientType>, peers: seq<Peer>)
  {
    forall p :: p in peers ==> p.client in types && types[p.client] == p.clientType
  }

  // The endpoints that an event finds.
  function PeersIn(e: Event): seq<Peer>
  {
    match e
    case Called(_, _, peers, _, _, _) => peers
    case Rebalanced(peers) => peers
    case _ => []
  }

  ghost predicate Step(sticky: bool, cfg: Config, p: ProxyState, e: Event, q: ProxyState)
  {
    match e
    case Limited(key, now) => q == p.Visited(key, now)
    case Called(key, now, peers, ov, minCgc, answer) =>
      var before := p.Visited(key, now);
      && key in q.tenants && q.tenants == before.tenants[key := q.tenants[key]]
      && Served(sticky, peers, key.prefix, ov, minCgc, before.tenants[key], p.cursors, answer, q.tenants[key],
                q.cursors)
    case Rebalanced(peers) => Swept(cfg, peers, p.tenants, q.tenants) && q.cursors == p.cursors
    case Expired(keys) => q == p.(tenants := p.tenants - keys)
  }

  // What the source gives its calls: endpoints in index order, and overrides that name a type.
  ghost predicate Orderly(e: Event)
  {
    IndexAscending(Clients(PeersIn(e))) && (e.Called? ==> e.ov != OfType(Unspecified))
  }

  ghost predicate Truthful(types: map<Client, ClientType>, e: Event)
  {
    Orderly(e) && Records(types, PeersIn(e))
  }

  ghost predicate IsRun(sticky: bool, cfg: Config, types: map<Client, ClientType>, states: seq<ProxyState>,
                        events: seq<Event>)
  {
    && |states| == |events| + 1
    && states[0].tenants == map[]
    && forall k :: 0 <= k < |events| ==> StepAt(sticky, cfg, types, states, events, k)
  }

  ghost predicate StepAt(sticky: bool, cfg: Config, types: map<Client, ClientType>, states: seq<ProxyState>,
                         events: seq<Event>, k: nat)
    requires k < |events| < |states|
  {
    Truthful(types, events[k]) && Step(sticky, cfg, states[k], events[k], states[k + 1])
  }

  lemma RunGrows(sticky: bool, cfg: Config, types: map<Client, ClientType>, states: seq<ProxyState>,
                 events: seq<Event>, e: Event, q: ProxyState)
    requires IsRun(sticky, cfg, types, states, events)
    requires Truthful(types, e) && Step(sticky, cfg, states[|events|], e, q)
    ensures IsRun(sticky, cfg, types, states + [q], events + [e])
  {
    var longer, more := states + [q], events + [e];
    forall k | 0 <= k < |more|
      ensures StepAt(sticky, cfg, types, longer, more, k)
    {
      assert k < |events| ==> StepAt(sticky, cfg, types, states, events, k);
    }
  }

  // ---------- where a session may be ----------

  // An endpoint of a type that the prefix does not allow.
  ghost predicate Away(types: map<Client, ClientType>, prefix: ClientType, last: Client?)
  {
    last != null && !(last in types && MayUse(prefix, types[last]))
  }

  // The session is open, and on such an endpoint.
  ghost predicate Astray(types: map<Client, ClientType>, p: ProxyState, key: Key)
  {
    key in p.tenants && Away(types, key.prefix, p.tenants[key].last)
  }

  // The event gives the session a new endpoint, or ends it.
  predicate Reroutes(e: Event, key: Key)
  {
    match e
    case Called(k, _, _, ov, minCgc, _) => k == key && !ov.ByName? && minCgc == 0
    case Expired(keys) => key in keys
    case _ => false
  }

  // The override asks for another type than the session's, and an endpoint of that type is ready.
  predicate Diverts(peers: seq<Peer>, prefix: ClientType, ov: Override)
  {
    ov.OfType? && prefix != Unspecified && ov.clientType != prefix && ov.clientType in Types(peers)
  }

  // Such a call, for no blobs.
  predicate DrivesAstray(e: Event, key: Key)
  {
    e.Called? && e.key == key && e.minCgc == 0 && Diverts(e.peers, key.prefix, e.ov)
  }

  ghost predicate SweepMoves(p: ProxyState, e: Event, q: ProxyState, key: Key)
  {
    e.Rebalanced? && key in p.tenants && key in q.tenants && p.tenants[key].last != q.tenants[key].last
  }

  // The answer is ready and suits, or is missing because nobody does.
  ghost predicate Suiting(peers: seq<Peer>, wanted: ClientType, minCgc: nat, answer: Client?)
  {
    if answer == null then forall p :: p in peers ==> !Suitable(p, wanted, minCgc)
    else exists p :: p in peers && p.client == answer && Suitable(p, wanted, minCgc)
  }

  lemma PickedSuits(peers: seq<Peer>, wanted: ClientType, minCgc: nat, cursors: Cursors, answer: Client?,
                    after: Cursors)
    requires IndexAscending(Clients(peers)) && Picked(peers, wanted, minCgc, cursors, answer, after)
    ensures Suiting(peers, wanted, minCgc, answer)
  {
    var eligible := Eligible(peers, wanted, minCgc);
    if answer != null {
      assert answer.clientIdx in eligible;
      var p :| p in peers && Suitable(p, wanted, minCgc) && p.client.clientIdx == answer.clientIdx;
      SameIndex(peers, p, answer);
    } else {
      forall p | p in peers
        ensures !Suitable(p, wanted, minCgc)
      {
        EligibleIndex(peers, wanted, minCgc, p);
      }
    }
  }

  // Of a call that names no endpoint: the override decides the type if there is one, else the route does.
  lemma ServedSuits(sticky: bool, peers: seq<Peer>, prefix: ClientType, ov: Override, minCgc: nat,
                    before: Tenant, cursors: Cursors, answer: Client?, after: Tenant, cursorsAfter: Cursors)
    requires IndexAscending(Clients(peers)) && !ov.ByName?
    requires Served(sticky, peers, prefix, ov, minCgc, before, cursors, answer, after, cursorsAfter)
    ensures Suiting(peers, if ov.OfType? then ov.clientType else prefix, minCgc, answer)
  {
    var asks := Asks(sticky, peers, prefix, before.last, ov, minCgc);
    if asks.Some? {
      PickedSuits(peers, asks.value, minCgc, cursors, answer, cursorsAfter);
    }
  }

  lemma EligibleIndex(peers: seq<Peer>, wanted: ClientType, minCgc: nat, p: Peer)
    requires p in peers
    ensures Suitable(p, wanted, minCgc) ==> p.client.clientIdx in Eligible(peers, wanted, minCgc)
  {
  }

  lemma SameIndex(peers: seq<Peer>, p: Peer, c: Client)
    requires IndexAscending(Clients(peers)) && p in peers && c in Clients(peers) && p.client.clientIdx == c.clientIdx
    ensures p.client == c
  {
    var i :| 0 <= i < |peers| && peers[i] == p;
    var j :| 0 <= j < |peers| && Clients(peers)[j] == c;
    assert Clients(peers)[i] == p.client;
  }

  // A call that may give the session a new endpoint leaves it away exactly if its override diverts it.
  lemma AwayIffDiverted(sticky: bool, types: map<Client, ClientType>, peers: seq<Peer>, prefix: ClientType,
                        ov: Override, before: Tenant, cursors: Cursors, answer: Client?, after: Tenant,
                        cursorsAfter: Cursors)
    requires KnownPeers(types, peers) && !ov.ByName? && ov != OfType(Unspecified)
    requires Served(sticky, peers, prefix, ov, 0, before, cursors, answer, after, cursorsAfter)
    ensures Away(types, prefix, after.last) <==> Diverts(peers, prefix, ov)
  {
    ServedSuits(sticky, peers, prefix, ov, 0, before, cursors, answer, after, cursorsAfter);
    if ov.OfType? {
      OverrideAwayIff(types, peers, prefix, ov.clientType, answer);
    }
  }

  lemma OverrideAwayIff(types: map<Client, ClientType>, peers: seq<Peer>, prefix: ClientType, t: ClientType,
                        answer: Client?)
    requires KnownPeers(types, peers) && t != Unspecified && Suiting(peers, t, 0, answer)
    ensures Away(types, prefix, answer) <==> Diverts(peers, prefix, OfType(t))
  {
    if answer != null {
      var p :| p in peers && p.client == answer && Suitable(p, t, 0);
      var i :| 0 <= i < |peers| && peers[i] == p;
      assert Types(peers)[i] == t;
    } else if t in Types(peers) {
      var i :| 0 <= i < |peers| && Types(peers)[i] == t;
      assert Suitable(peers[i], t, 0);
      assert false;
    }
  }

  // Whatever the loop moves, it moves to a place the prefix allows.
  lemma {:induction false} MovesHome(cfg: Config, types: seq<ClientType>, tr: seq<Seating>, m: nat, i: nat)
    requires Trace(cfg, types, tr) && m < |tr| && i < |tr[0]|
    ensures |tr[m]| == |tr[0]| && tr[m][i].prefix == tr[0][i].prefix
    ensures var at := tr[m][i].at;
            at == tr[0][i].at || (at.Some? && at.value < |types| && MayUse(tr[0][i].prefix, types[at.value]))
    decreases m
  {
    if m > 0 {
      MovesHome(cfg, types, tr, m - 1, i);
      assert Round(types, tr[m - 1], tr[m]);
      var j: nat, b: nat :| Chosen(types, tr[m - 1], j, b) && tr[m] == Reseated(tr[m - 1], j, b);
    }
  }

  lemma PlaceOf(clients: seq<Client>, client: Client?)
    ensures var at := PlaceIn(clients, client);
            if client != null && client in clients then at.Some? && at.value < |clients| && clients[at.value] == client
            else at.None?
  {
  }

  // How the seats of a sweep's run stand for the sessions, before and after it.
  lemma SweepSeats(cfg: Config, peers: seq<Peer>, before: map<Key, Tenant>, after: map<Key, Tenant>, order: seq<Key>,
                   tr: seq<Seating>, i: nat)
    requires SweptBy(cfg, peers, before, after, order, tr) && i < |order|
    ensures order[i] in before && order[i] in after && i < |tr[0]| && i < |tr[|tr| - 1]|
    ensures tr[0][i].prefix == order[i].prefix && tr[0][i].since == before[order[i]].since == after[order[i]].since
    ensures var at, last := tr[0][i].at, before[order[i]].last;
            if last != null && exists p :: p in peers && p.client == last
            then at.Some? && at.value < |peers| && peers[at.value].client == last else at.None?
    ensures var at, last := tr[|tr| - 1][i].at, after[order[i]].last;
            if at.None? then last == before[order[i]].last
            else at.value < |peers| && peers[at.value].client == last
  {
    PlaceOf(Clients(peers), before[order[i]].last);
    PlaceOf(Clients(peers), after[order[i]].last);
    assert forall p :: p in peers ==> p.client in Clients(peers) by {
      forall p | p in peers
        ensures p.client in Clients(peers)
      {
        var k :| 0 <= k < |peers| && peers[k] == p;
        assert Clients(peers)[k] == p.client;
      }
    }
    MovesHome(cfg, Types(peers), tr, |tr| - 1, i);
    SeatKept(cfg, Types(peers), tr, |tr| - 1, i);
  }

  // A session on an endpoint of the loop stays on one, and one on none stays so.
  lemma {:induction false} SeatKept(cfg: Config, types: seq<ClientType>, tr: seq<Seating>, m: nat, i: nat)
    requires Trace(cfg, types, tr) && m < |tr| && i < |tr[0]|
    ensures |tr[m]| == |tr[0]| && (tr[m][i].at.None? <==> tr[0][i].at.None?)
    decreases m
  {
    if m > 0 {
      SeatKept(cfg, types, tr, m - 1, i);
      assert Round(types, tr[m - 1], tr[m]);
      var j: nat, b: nat :| Chosen(types, tr[m - 1], j, b) && tr[m] == Reseated(tr[m - 1], j, b);
    }
  }

  // A sweep leaves a session where it was, or on an endpoint its prefix allows.
  lemma SweepMovesHome(cfg: Config, types: map<Client, ClientType>, peers: seq<Peer>, before: map<Key, Tenant>,
                       after: map<Key, Tenant>, key: Key)
    requires KnownPeers(types, peers) && Swept(cfg, peers, before, after) && key in before
    ensures key in after
    ensures after[key].last == before[key].last || !Away(types, key.prefix, after[key].last)
  {
    if |peers| > 1 {
      var order, tr :| SweptBy(cfg, peers, before, after, order, tr);
      var i :| 0 <= i < |order| && order[i] == key;
      MovesHome(cfg, Types(peers), tr, |tr| - 1, i);
      PlaceOf(Clients(peers), before[key].last);
      PlaceOf(Clients(peers), after[key].last);
      assert tr[|tr| - 1][i] == SeatOf(Clients(peers), key, after[key]);
      var at := PlaceIn(Clients(peers), after[key].last);
      if at.Some? {
        assert peers[at.value] in peers;
      }
    }
  }

  // Over one step: a session is astray afterwards exactly if the step drives it astray, or it was astray and
  // neither rerouted nor moved.
  lemma AstrayByStep(sticky: bool, cfg: Config, types: map<Client, ClientType>, p: ProxyState, e: Event, q: ProxyState,
                     key: Key)
    requires Truthful(types, e) && Step(sticky, cfg, p, e, q)
    ensures Astray(types, q, key) <==>
              || DrivesAstray(e, key)
              || (Astray(types, p, key) && !Reroutes(e, key) && !SweepMoves(p, e, q, key))
  {
    match e
    case Limited(k, _) =>
    case Called(k, now, peers, ov, minCgc, answer) =>
      if k == key && Reroutes(e, key) {
        var before := p.Visited(k, now).tenants[k];
        AwayIffDiverted(sticky, types, peers, k.prefix, ov, before, p.cursors, answer, q.tenants[k], q.cursors);
      }
    case Rebalanced(peers) =>
      if key in p.tenants {
        SweepMovesHome(cfg, types, peers, p.tenants, q.tenants, key);
      } else if |peers| > 1 {
        var order, tr :| SweptBy(cfg, peers, p.tenants, q.tenants, order, tr);
      }
    case Expired(_) =>
  }

  // Event j drove the session astray, and nothing before state k rerouted or moved it.
  ghost predicate DrivenSince(states: seq<ProxyState>, events: seq<Event>, key: Key, j: nat, k: nat)
    requires k < |states| == |events| + 1
  {
    && j < k
    && DrivesAstray(events[j], key)
    && forall m :: j < m < k ==> !Reroutes(events[m], key) && !SweepMoves(states[m], events[m], states[m + 1], key)
  }

  ghost predicate Driven(states: seq<ProxyState>, events: seq<Event>, key: Key, k: nat)
    requires k < |states| == |events| + 1
  {
    exists j: nat :: DrivenSince(states, events, key, j, k)
  }

  lemma DrivenByStep(states: seq<ProxyState>, events: seq<Event>, key: Key, k: nat)
    requires |states| == |events| + 1 && k < |events|
    ensures Driven(states, events, key, k + 1) <==>
              || DrivesAstray(events[k], key)
              || (Driven(states, events, key, k)
                  && !Reroutes(events[k], key) && !SweepMoves(states[k], events[k], states[k + 1], key))
  {
    if DrivesAstray(events[k], key) {
      assert DrivenSince(states, events, key, k, k + 1);
    } else if j: nat :| DrivenSince(states, events, key, j, k) {
      if !Reroutes(events[k], key) && !SweepMoves(states[k], events[k], states[k + 1], key) {
        assert DrivenSince(states, events, key, j, k + 1);
      }
    }
    if Driven(states, events, key, k + 1) {
      var j: nat :| DrivenSince(states, events, key, j, k + 1);
      assert j < k ==> DrivenSince(states, events, key, j, k);
    }
  }

  // Over every run: a session is on an endpoint its prefix does not allow exactly if a call with an override
  // of another type drove it there, and since then no call, expiry or sweep gave it another endpoint.
  lemma {:induction false} AstrayIffDriven(sticky: bool, cfg: Config, types: map<Client, ClientType>,
                                           states: seq<ProxyState>, events: seq<Event>, key: Key, k: nat)
    requires IsRun(sticky, cfg, types, states, events) && k < |states|
    ensures Astray(types, states[k], key) <==> Driven(states, events, key, k)
    decreases k
  {
    if k > 0 {
      AstrayIffDriven(sticky, cfg, types, states, events, key, k - 1);
      assert StepAt(sticky, cfg, types, states, events, k - 1);
      AstrayByStep(sticky, cfg, types, states[k - 1], events[k - 1], states[k], key);
      DrivenByStep(states, events, key, k - 1);
    }
  }

  // So without overrides by type, sessions of client-specific routes stay with clients of their type.
  lemma NeverAstrayWithoutOverride(sticky: bool, cfg: Config, types: map<Client, ClientType>,
                                   states: seq<ProxyState>, events: seq<Event>, key: Key, k: nat)
    requires IsRun(sticky, cfg, types, states, events) && k < |states|
    requires forall e :: e in events && e.Called? && e.key == key ==> !e.ov.OfType?
    ensures !Astray(types, states[k], key)
  {
    AstrayIffDriven(sticky, cfg, types, states, events, key, k);
  }

  // With one they need not: a Lighthouse session is left on a Teku client, and a call for blobs leaves it there.
  lemma OverrideLeavesHome(sticky: bool, cfg: Config, teku: Client)
    returns (states: seq<ProxyState>, events: seq<Event>)
    ensures IsRun(sticky, cfg, map[teku := Teku], states, events) && |events| == 2
    ensures Astray(map[teku := Teku], states[2], Key("", Lighthouse))
  {
    var key, peers := Key("", Lighthouse), [Peer(teku, Teku, 0)];
    var s0, s1 := ProxyState(map[], map[]), ProxyState(map[key := Tenant(0, teku)], map[Teku := teku.clientIdx]);
    var diverted, blobs := Called(key, 0, peers, OfType(Teku), 0, teku), Called(key, 0, peers, NoOverride, 64, null);
    DivertedStep(sticky, cfg, key, teku, peers, s0, s1);
    assert Step(sticky, cfg, s1, blobs, s1);
    states, events := [s0, s1, s1], [diverted, blobs];
    AstrayIffDriven(sticky, cfg, map[teku := Teku], states, events, key, 2);
    assert DrivenSince(states, events, key, 0, 2);
  }

  lemma DivertedStep(sticky: bool, cfg: Config, key: Key, teku: Client, peers: seq<Peer>, s0: ProxyState,
                     s1: ProxyState)
    requires peers == [Peer(teku, Teku, 0)] && s0 == ProxyState(map[], map[])
    requires s1 == ProxyState(map[key := Tenant(0, teku)], map[Teku := teku.clientIdx])
    ensures Step(sticky, cfg, s0, Called(key, 0, peers, OfType(Teku), 0, teku), s1)
  {
    assert peers[0] in peers;
    EligibleIndex(peers, Teku, 0, peers[0]);
    assert Picked(peers, Teku, 0, s0.cursors, teku, s1.cursors);
  }

  // ---------- what the scheduler sees of a run ----------

  // The scheduler call that an event makes, if it makes one.
  ghost function Scheduled(sticky: bool, p: ProxyState, e: Event): Option<Call>
  {
    match e
    case Called(key, now, peers, ov, minCgc, answer) =>
      (match Asks(sticky, peers, key.prefix, p.Visited(key, now).tenants[key].last, ov, minCgc)
       case None => None
       case Some(wanted) => Some(Call(wanted, Eligible(peers, wanted, minCgc), IndexOf(answer))))
    case _ => None
  }

  ghost function CallsFrom(sticky: bool, states: seq<ProxyState>, events: seq<Event>, m: nat): seq<Call>
    requires m <= |events| < |states|
    decreases |events| - m
  {
    if m == |events| then []
    else
      var call := Scheduled(sticky, states[m], events[m]);
      (if call.Some? then [call.value] else []) + CallsFrom(sticky, states, events, m + 1)
  }

  // One call of the scheduler, or none, takes the cursors from one state to the next.
  ghost predicate CursorStep(cursors: Cursors, call: Option<Call>, next: Cursors)
  {
    match call
    case None => next == cursors
    case Some(c) => Answers(cursors, c) && next == After(cursors, c)
  }

  lemma CursorsByStep(sticky: bool, cfg: Config, p: ProxyState, e: Event, q: ProxyState)
    requires Step(sticky, cfg, p, e, q)
    ensures CursorStep(p.cursors, Scheduled(sticky, p, e), q.cursors)
  {
  }

  lemma CursorsOfRun(sticky: bool, cfg: Config, types: map<Client, ClientType>, states: seq<ProxyState>,
                     events: seq<Event>, m: nat)
    requires IsRun(sticky, cfg, types, states, events) && m < |events|
    ensures CursorStep(states[m].cursors, Scheduled(sticky, states[m], events[m]), states[m + 1].cursors)
  {
    assert StepAt(sticky, cfg, types, states, events, m);
    CursorsByStep(sticky, cfg, states[m], events[m], states[m + 1]);
  }

  // Whatever else goes on, the scheduler's calls of a run are a schedule.
  lemma {:induction false} RunIsSchedule(sticky: bool, cfg: Config, types: map<Client, ClientType>,
                                         states: seq<ProxyState>, events: seq<Event>, m: nat)
    requires IsRun(sticky, cfg, types, states, events) && m <= |events|
    ensures Schedule(states[m].cursors, CallsFrom(sticky, states, events, m))
    decreases |events| - m
  {
    if m < |events| {
      RunIsSchedule(sticky, cfg, types, states, events, m + 1);
      CursorsOfRun(sticky, cfg, types, states, events, m);
      ScheduleGrows(states[m].cursors, Scheduled(sticky, states[m], events[m]), states[m + 1].cursors,
                    CallsFrom(sticky, states, events, m + 1));
    }
  }

  lemma ScheduleGrows(cursors: Cursors, call: Option<Call>, next: Cursors, rest: seq<Call>)
    requires CursorStep(cursors, call, next) && Schedule(next, rest)
    ensures Schedule(cursors, (if call.Some? then [call.value] else []) + rest)
  {
    var all := (if call.Some? then [call.value] else []) + rest;
    if call.Some? {
      assert all[0] == call.value && all[1..] == rest;
    } else {
      assert all == rest;
    }
  }

  lemma {:induction false} CallsComeFromEvents(sticky: bool, states: seq<ProxyState>, events: seq<Event>, m: nat)
    requires m <= |events| < |states|
    ensures forall call :: call in CallsFrom(sticky, states, events, m) ==>
      exists k :: m <= k < |events| && Scheduled(sticky, states[k], events[k]) == Some(call)
    decreases |events| - m
  {
    if m < |events| {
      CallsComeFromEvents(sticky, states, events, m + 1);
      forall call | call in CallsFrom(sticky, states, events, m)
        ensures exists k :: m <= k < |events| && Scheduled(sticky, states[k], events[k]) == Some(call)
      {
        if call !in CallsFrom(sticky, states, events, m + 1) {
          assert Scheduled(sticky, states[m], events[m]) == Some(call);
        }
      }
    }
  }

  lemma {:induction false} PickOf(calls: seq<Call>, t: ClientType, c: nat) returns (call: Call)
    requires c in Picks(calls, t)
    ensures call in calls && call.clientType == t && call.pick == Some(c)
    decreases |calls|
  {
    call := calls[0];
    if !(call.clientType == t && call.pick == Some(c)) {
      call := PickOf(calls[1..], t, c);
    }
  }

  // Nobody starves at the proxy: from any state on, an endpoint that is ready and suits every call scheduled for a
  // type answers one of them, once they are as many as the pool has clients.
  lemma EveryPeerIsServed(sticky: bool, cfg: Config, types: map<Client, ClientType>, states: seq<ProxyState>,
                          events: seq<Event>, m: nat, pool: set<nat>, t: ClientType, c: nat)
    returns (k: nat)
    requires IsRun(sticky, cfg, types, states, events) && m <= |events|
    requires forall k :: m <= k < |events| ==> Admits(Scheduled(sticky, states[k], events[k]), pool, t, c)
    requires CallsFor(CallsFrom(sticky, states, events, m), t) >= |pool| && pool != {}
    ensures m <= k < |events| && events[k].Called? && events[k].answer != null && events[k].answer.clientIdx == c
    ensures var call := Scheduled(sticky, states[k], events[k]); call.Some? && call.value.clientType == t
  {
    var calls := CallsFrom(sticky, states, events, m);
    RunIsSchedule(sticky, cfg, types, states, events, m);
    CallsComeFromEvents(sticky, states, events, m);
    forall call | call in calls && call.clientType == t
      ensures c in call.eligible && call.eligible <= pool
    {
      var j :| m <= j < |events| && Scheduled(sticky, states[j], events[j]) == Some(call);
      assert Admits(Scheduled(sticky, states[j], events[j]), pool, t, c);
    }
    BoundedWait(pool, states[m].cursors, calls, t, c);
    var call := PickOf(calls, t, c);
    k :| m <= k < |events| && Scheduled(sticky, states[k], events[k]) == Some(call);
  }

  ghost predicate Admits(call: Option<Call>, pool: set<nat>, t: ClientType, c: nat)
  {
    call.Some? && call.value.clientType == t ==> c in call.value.eligible && call.value.eligible <= pool
  }
}
